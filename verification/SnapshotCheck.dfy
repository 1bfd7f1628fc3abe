/**
 validateSnapshot of internal/controlplane/validate.go: the structural check of a snapshot, the
 issues it reports, and ValidateBundle as a whole.
 */
module SnapshotCheck {
  import opened Json
  import opened ControlPlane
  import opened Validation

  datatype Field = Nodes | UpstreamId | Uri | ServiceId

  datatype Issue = Issue(key: Key, field: Field)

  // ---------------------------------------------------------------- what a sound snapshot is

  predicate HasUpstream(snap: Snapshot, id: string) { (Upstreams, id) in snap }

  predicate HasService(snap: Snapshot, id: string) { (Services, id) in snap }

  /** Every resource is complete and everything it refers to is there. */
  predicate SoundAt(snap: Snapshot, key: Key)
    requires key in snap
  {
    var r := snap[key];
    match key.0
    case Upstreams => r.nodes.Some?
    case Services =>
      if r.upstreamId == "" then r.inline.Some? else HasUpstream(snap, r.upstreamId)
    case Routes =>
      && (r.uri != "" || r.uris != [])
      && (r.serviceId != "" || r.upstreamId != "" || r.inline.Some?)
      && (r.serviceId != "" ==> HasService(snap, r.serviceId))
      && (r.upstreamId != "" ==> HasUpstream(snap, r.upstreamId))
    case _ => true
  }

  predicate Sound(snap: Snapshot) {
    forall key :: key in snap ==> SoundAt(snap, key)
  }

  /** Whether the field of the resource is at fault; at most one fault of a service, and of a route
      only the first of path and target, is reported. */
  predicate Fault(snap: Snapshot, i: Issue) {
    i.key in snap &&
    var r := snap[i.key];
    match (i.key.0, i.field)
    case (Upstreams, Nodes) => r.nodes.None?
    case (Services, UpstreamId) =>
      if r.upstreamId == "" then r.inline.None? else !HasUpstream(snap, r.upstreamId)
    case (Routes, Uri) => r.uri == "" && r.uris == []
    case (Routes, ServiceId) =>
      && (r.uri != "" || r.uris != [])
      && (if r.serviceId == "" then r.upstreamId == "" && r.inline.None? else !HasService(snap, r.serviceId))
    case (Routes, UpstreamId) =>
      && (r.uri != "" || r.uris != [])
      && r.upstreamId != "" && !HasUpstream(snap, r.upstreamId)
    case _ => false
  }

  lemma {:induction false} SoundAtIff(snap: Snapshot, key: Key)
    requires key in snap
    ensures SoundAt(snap, key) <==> forall f :: !Fault(snap, Issue(key, f))
  {
    if forall f :: !Fault(snap, Issue(key, f)) {
      assert !Fault(snap, Issue(key, Nodes)) && !Fault(snap, Issue(key, UpstreamId));
      assert !Fault(snap, Issue(key, Uri)) && !Fault(snap, Issue(key, ServiceId));
    }
  }

  /** A snapshot is sound exactly if no field is at fault. */
  lemma {:induction false} SoundIff(snap: Snapshot)
    ensures Sound(snap) <==> forall i :: !Fault(snap, i)
  {
    forall key | key in snap ensures SoundAt(snap, key) <==> forall f :: !Fault(snap, Issue(key, f)) {
      SoundAtIff(snap, key);
    }
    if Sound(snap) {
      forall i: Issue ensures !Fault(snap, i) {
        assert i == Issue(i.key, i.field);
        if i.key in snap { assert SoundAt(snap, i.key); }
      }
    }
  }

  // ---------------------------------------------------------------- the loops

  /** The body of the three loops: the issues of one resource, in the order they are appended. */
  method IssuesOf(snap: Snapshot, key: Key) returns (issues: seq<Issue>)
    requires key in snap
    ensures forall i :: i in issues <==> i.key == key && Fault(snap, i)
  {
    issues := [];
    var r := snap[key];
    match key.0 {
      case Upstreams =>
        if r.nodes.None? { issues := [Issue(key, Nodes)]; }
      case Services =>
        if r.upstreamId == "" && r.inline.None? {
          return [Issue(key, UpstreamId)];
        }
        if r.upstreamId != "" && (Upstreams, r.upstreamId) !in snap {
          issues := [Issue(key, UpstreamId)];
        }
      case Routes =>
        if r.uri == "" && r.uris == [] {
          return [Issue(key, Uri)];
        }
        if r.serviceId == "" && r.upstreamId == "" && r.inline.None? {
          return [Issue(key, ServiceId)];
        }
        if r.serviceId != "" && (Services, r.serviceId) !in snap {
          issues := issues + [Issue(key, ServiceId)];
        }
        if r.upstreamId != "" && (Upstreams, r.upstreamId) !in snap {
          issues := issues + [Issue(key, UpstreamId)];
        }
      case _ =>
    }
  }

  method CollectIssues(snap: Snapshot) returns (issues: seq<Issue>)
    ensures forall i :: i in issues <==> Fault(snap, i)
  {
    issues := [];
    var todo := snap.Keys;
    while todo != {}
      invariant todo <= snap.Keys
      invariant forall i :: i in issues <==> i.key !in todo && Fault(snap, i)
    {
      var key :| key in todo;
      var more := IssuesOf(snap, key);
      issues := issues + more;
      todo := todo - {key};
    }
  }

  /** The target of a validation, if there is one; an empty id stands for the whole kind. */
  predicate OnTarget(target: Option<Kind>, id: string, i: Issue) {
    target.Some? && i.key.0 == target.value && (id == "" || i.key.1 == id)
  }

  /** filterIssues. */
  method FilterIssues(issues: seq<Issue>, target: Option<Kind>, id: string) returns (out: seq<Issue>)
    ensures forall i :: i in out <==> i in issues && OnTarget(target, id, i)
  {
    out := [];
    for k := 0 to |issues|
      invariant forall i :: i in out <==> i in issues[..k] && OnTarget(target, id, i)
    {
      assert issues[..k + 1] == issues[..k] + [issues[k]];
      var key := issues[k].key;
      if target == Some(key.0) && (id == "" || key.1 == id) { out := out + [issues[k]]; }
    }
    assert issues[..|issues|] == issues;
  }

  /** validateSnapshot.  The verdict is soundness, whatever the target; the target only decides
      which faults are shown: its own if it has any, else all. */
  method ValidateSnapshot(snap: Snapshot, target: Option<Kind>, id: string) returns (valid: bool, issues: seq<Issue>)
    ensures valid <==> Sound(snap)
    ensures valid <==> issues == []
    ensures forall i :: i in issues <==>
              Fault(snap, i) && (OnTarget(target, id, i) || forall j :: Fault(snap, j) ==> !OnTarget(target, id, j))
  {
    var all := CollectIssues(snap);
    SoundIff(snap);
    var primary := FilterIssues(all, target, id);
    if |primary| > 0 {
      assert primary[0] in primary;
      return false, primary;
    }
    assert forall i :: i in all ==> !OnTarget(target, id, i);
    if |all| > 0 {
      assert all[0] in all;
      return false, all;
    }
    assert forall i :: i !in all;
    return true, [];
  }

  /** ValidateBundle; the fallback target is some entry of the bundle. */
  method ValidateBundle(s: Store, b: Bundle, o: PruneOptions, dec: Decoder, show: Value -> string,
                        target: Option<Kind>, id: string)
    returns (ok: bool, valid: bool, issues: seq<Issue>)
    ensures WellFormed(s) ==> (ok <==> Decodable(s, dec) && Stageable(b, dec))
    ensures WellFormed(s) && ok ==> forall after, snap ::
              Applicable(b) && Applied(s, after, b, PruneKinds(b, o)) && SnapshotOf(after, dec, snap) ==>
              (valid <==> Sound(snap))
  {
    var snap; ghost var base;
    ok, snap, base := StageBundle(s, b, o, dec, show);
    if !ok { return false, false, []; }
    valid, issues := ValidateSnapshot(snap, target, id);
    if WellFormed(s) {
      forall after, snap' |
        Applicable(b) && Applied(s, after, b, PruneKinds(b, o)) && SnapshotOf(after, dec, snap')
        ensures snap' == snap
      {
        ValidationCommutes(s, after, b, PruneKinds(b, o), dec, base, snap);
        SnapshotIsUnique(after, dec, snap, snap');
      }
    }
  }
}
