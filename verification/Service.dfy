/**
 controlplane.Service (internal/controlplane/controlplane.go): a resource store and a history of
 exported snapshots behind one object, as a class and as runs of its calls.  Proved over every
 run: the store stays well formed, create_time is stable, and rolling back restores.
 */
module ControlPlaneService {
  import opened Json
  import opened ControlPlane
  import opened BundleApply
  import opened History

  datatype State = State(store: Store, history: Entries)

  /** What the service was built with: the retention limit and the kinds that history exports. */
  datatype Setup = Setup(limit: nat, include_: set<Kind>, show: Value -> string)

  /** The mutating calls, with the clock readings they take. */
  datatype Call =
    | PutCall(key: Key, body: Raw, now: int)
    | PostCall(kind: Kind, body: Raw, generated: string, now: int)
    | PatchCall(key: Key, patch: Raw, now: int)
    | DeleteCall(key: Key)
    | ApplyCall(bundle: Bundle, options: PruneOptions)
    | SaveCall(id: string)
    | RollbackCall(target: string, id: string)

  /** A call and the history entry it returned, if any. */
  datatype Event = Event(call: Call, saved: Option<HistoryEntry>)

  /** An error leaves the store as it was. */
  function OrSame(r: Option<Store>, s: Store): Store {
    if r.Some? then r.value else s
  }

  /** Post takes the id from the body, else a generated one. */
  function Post(s: Store, kind: Kind, body: Raw, generated: string, now: int, show: Value -> string): Option<Store> {
    var id := ExtractId(body, show);
    if id.None? then None
    else Put(s, (kind, if id.value == "" then generated else id.value), body, now)
  }

  /** The outcome of an apply, complete or stopped by an error. */
  ghost predicate ApplyOutcome(before: Store, after: Store, b: Bundle, o: PruneOptions) {
    Touched(before, after, b, PruneKinds(b, o)) && (Applicable(b) ==> Applied(before, after, b, PruneKinds(b, o)))
  }

  /** saveHistorySnapshot: export and retain, or fail on an unsupported kind. */
  ghost predicate SaveOutcome(c: Setup, s: Store, h: Entries, id: string, origin: string,
                              saved: Option<HistoryEntry>, h': Entries) {
    if Selection(c.include_) <= SUPPORTED then
      && saved.Some? && saved.value.id == id && saved.value.rollbackOf == origin
      && Exported(s, Selection(c.include_), saved.value.bundle)
      && h' == Save(h, saved.value, c.limit)
    else saved.None? && h' == h
  }

  ghost predicate RollbackOutcome(c: Setup, s: State, target: string, id: string,
                                  saved: Option<HistoryEntry>, s': State) {
    if target !in s.history then s' == s && saved.None?
    else
      var b := s.history[target].bundle;
      && ApplyOutcome(s.store, s'.store, b, PruneOptions(true, b.managed))
      && (if Applicable(b) then SaveOutcome(c, s'.store, s.history, id, target, saved, s'.history)
          else saved.None? && s'.history == s.history)
  }

  /** One call on a well-formed store. */
  ghost predicate Step(c: Setup, s: State, e: Event, s': State) {
    match e.call
    case PutCall(key, body, now) =>
      e.saved.None? && s' == State(OrSame(Put(s.store, key, body, now), s.store), s.history)
    case PostCall(kind, body, generated, now) =>
      e.saved.None? && s' == State(OrSame(Post(s.store, kind, body, generated, now, c.show), s.store), s.history)
    case PatchCall(key, patch, now) =>
      e.saved.None? && s' == State(OrSame(Patch(s.store, key, patch, now), s.store), s.history)
    case DeleteCall(key) =>
      e.saved.None? && s' == State(OrSame(Delete(s.store, key), s.store), s.history)
    case ApplyCall(b, o) =>
      e.saved.None? && s'.history == s.history && ApplyOutcome(s.store, s'.store, b, o)
    case SaveCall(id) =>
      s'.store == s.store && SaveOutcome(c, s.store, s.history, id, "", e.saved, s'.history)
    case RollbackCall(target, id) =>
      RollbackOutcome(c, s, target, id, e.saved, s')
  }

  ghost predicate Run(c: Setup, states: seq<State>, events: seq<Event>) {
    && |states| == |events| + 1
    && forall i :: 0 <= i < |events| ==> Step(c, states[i], events[i], states[i + 1])
  }

  // ---------------------------------------------------------------- the object

  class Service {
    var store: Store
    var history: Entries
    const setup: Setup

    ghost function Now(): State
      reads this
    {
      State(store, history)
    }

    /** WithHistory: a limit that is not positive means ten. */
    constructor (store: Store, history: Entries, limit: int, include_: set<Kind>, show: Value -> string)
      ensures Now() == State(store, history)
      ensures setup == Setup(if limit > 0 then limit else 10, include_, show)
    {
      this.store, this.history := store, history;
      setup := Setup(if limit > 0 then limit else 10, include_, show);
    }

    method PutResource(key: Key, body: Raw, now: int) returns (ok: bool)
      modifies this
      ensures Step(setup, old(Now()), Event(PutCall(key, body, now), None), Now())
      ensures ok <==> !key.0.Unsupported? && key.1 != "" && Writable(old(store), key, body)
      ensures if ok then WroteOnly(old(store), store, key, body, now) else Now() == old(Now())
    {
      PutWrites(store, key, body, now);
      var r := Put(store, key, body, now);
      ok := r.Some?;
      if ok { store := r.value; }
    }

    method PostResource(kind: Kind, body: Raw, generated: string, now: int) returns (ok: bool)
      requires generated != ""
      modifies this
      ensures Step(setup, old(Now()), Event(PostCall(kind, body, generated, now), None), Now())
      ensures ok <==>
              && !kind.Unsupported? && DecodeObject(body).Some?
              && Writable(old(store), (kind, PostedId(DecodeObject(body).value, generated, setup.show)), body)
      ensures if ok then
                WroteOnly(old(store), store, (kind, PostedId(DecodeObject(body).value, generated, setup.show)), body,
                          now)
              else Now() == old(Now())
    {
      var id := ExtractId(body, setup.show);
      if id.None? { return false; }
      var key := (kind, if id.value == "" then generated else id.value);
      PutWrites(store, key, body, now);
      var r := Put(store, key, body, now);
      ok := r.Some?;
      if ok { store := r.value; }
    }

    method PatchResource(key: Key, patch: Raw, now: int) returns (ok: bool)
      modifies this
      ensures Step(setup, old(Now()), Event(PatchCall(key, patch, now), None), Now())
      ensures WellFormed(old(store)) ==> (ok <==> key in old(store) && DecodeObject(patch).Some?)
      ensures if ok then PatchedOnly(old(store), store, key, patch, now) else Now() == old(Now())
    {
      if key !in store { return false; }
      var base, p := DecodeObject(Text(store[key])), DecodeObject(patch);
      if base.None? || p.None? { return false; }
      var merged := MergeObject(base.value, p.value);
      if WellFormed(store) { NormalizeOk(store, key, Text(Object(merged)), now); }
      if Patch(store, key, patch, now).Some? { PatchWrites(store, key, patch, now); }
      var r := Put(store, key, Text(Object(merged)), now);
      ok := r.Some?;
      if ok { store := r.value; }
    }

    method DeleteResource(key: Key) returns (ok: bool)
      modifies this
      ensures Step(setup, old(Now()), Event(DeleteCall(key), None), Now())
      ensures ok <==> !key.0.Unsupported? && key.1 != ""
      ensures forall other: Key :: Get(store, other) == if ok && other == key then None else Get(old(store), other)
      ensures history == old(history)
    {
      var r := Delete(store, key);
      ok := r.Some?;
      if ok { store := r.value; }
    }

    method Apply(b: Bundle, o: PruneOptions) returns (ok: bool)
      modifies this
      ensures WellFormed(old(store)) ==> Step(setup, old(Now()), Event(ApplyCall(b, o), None), Now())
      ensures WellFormed(old(store)) ==> (ok <==> Applicable(b)) && WellFormed(store)
      ensures history == old(history)
    {
      var counts;
      store, ok, counts := ApplyBundle(store, b, o, setup.show);
    }

    method SaveSnapshot(id: string, origin: string) returns (saved: Option<HistoryEntry>)
      requires setup.limit > 0
      modifies this`history
      ensures WellFormed(store) ==> SaveOutcome(setup, store, old(history), id, origin, saved, history)
      ensures WellFormed(store) && origin == "" ==> Step(setup, old(Now()), Event(SaveCall(id), saved), Now())
    {
      var ok, b := ExportBundle(store, setup.include_, setup.show);
      if !ok { return None; }
      var e := HistoryEntry(id, b, origin);
      history := SaveEntry(history, e, setup.limit);
      saved := Some(e);
    }

    method Rollback(target: string, id: string) returns (ok: bool, saved: Option<HistoryEntry>)
      requires setup.limit > 0
      modifies this
      ensures WellFormed(old(store)) ==> Step(setup, old(Now()), Event(RollbackCall(target, id), saved), Now())
      ensures WellFormed(old(store)) ==>
                (ok <==> target in old(history) && Applicable(old(history)[target].bundle) &&
                         Selection(setup.include_) <= SUPPORTED)
    {
      if target !in history { return false, None; }
      var b := history[target].bundle;
      ok := Apply(b, PruneOptions(true, b.managed));
      if !ok { return false, None; }
      saved := SaveSnapshot(id, target);
      ok := saved.Some?;
    }
  }

  // ---------------------------------------------------------------- the store over whole runs

  lemma {:induction false} PutIsWellFormed(s: Store, key: Key, body: Raw, now: int)
    requires WellFormed(s)
    ensures WellFormed(OrSame(Put(s, key, body, now), s))
  {
    var r := Put(s, key, body, now);
    if r.Some? {
      assert Written(s, key, body, r.value[key]) by {
        assert Normalize(s, key, body, now) == Some(r.value[key].members);
      }
      WrittenIsWellFormed(s, key, body, r.value[key]);
    }
  }

  lemma {:induction false} StepKeepsWellFormed(c: Setup, s: State, e: Event, s': State)
    requires WellFormed(s.store) && Step(c, s, e, s')
    ensures WellFormed(s'.store)
  {
    match e.call
    case PutCall(key, body, now) => PutIsWellFormed(s.store, key, body, now);
    case PostCall(kind, body, generated, now) =>
      var id := ExtractId(body, c.show);
      if id.Some? {
        PutIsWellFormed(s.store, (kind, if id.value == "" then generated else id.value), body, now);
      }
    case PatchCall(key, patch, now) =>
      if key in s.store {
        var base, p := DecodeObject(Text(s.store[key])), DecodeObject(patch);
        if base.Some? && p.Some? {
          PutIsWellFormed(s.store, key, Text(Merge(Object(base.value), Object(p.value))), now);
        }
      }
    case DeleteCall(key) =>
    case ApplyCall(b, o) => TouchedIsWellFormed(s.store, s'.store, b, PruneKinds(b, o));
    case SaveCall(id) =>
    case RollbackCall(target, id) =>
      if target in s.history {
        var b := s.history[target].bundle;
        TouchedIsWellFormed(s.store, s'.store, b, PruneKinds(b, PruneOptions(true, b.managed)));
      }
  }

  /** Every run of calls keeps every body's id equal to its key and its create_time present. */
  lemma {:induction false} RunKeepsWellFormed(c: Setup, states: seq<State>, events: seq<Event>, k: nat)
    requires Run(c, states, events) && WellFormed(states[0].store) && k < |states|
    ensures WellFormed(states[k].store)
  {
    if k > 0 {
      RunKeepsWellFormed(c, states, events, k - 1);
      StepKeepsWellFormed(c, states[k - 1], events[k - 1], states[k]);
    }
  }

  predicate HasCreateTime(body: Raw) {
    DecodeObject(body).Some? && "create_time" in DecodeObject(body).value
  }

  /** The call brings its own create_time for the key.  A null in a patch does not count as one. */
  predicate Supplies(c: Setup, s: State, call: Call, key: Key) {
    match call
    case PutCall(k, body, _) => k == key && HasCreateTime(body)
    case PostCall(kind, body, generated, _) =>
      var id := ExtractId(body, c.show);
      && id.Some? && key == (kind, if id.value == "" then generated else id.value)
      && HasCreateTime(body)
    case PatchCall(k, patch, _) =>
      k == key && HasCreateTime(patch) && !DecodeObject(patch).value["create_time"].Null?
    case ApplyCall(b, _) => InBundle(b, key) && HasCreateTime(Group(b, key.0)[key.1])
    case RollbackCall(target, _) =>
      && target in s.history && InBundle(s.history[target].bundle, key)
      && HasCreateTime(Group(s.history[target].bundle, key.0)[key.1])
    case _ => false
  }

  lemma {:induction false} PutKeepsCreateTime(s: Store, k: Key, body: Raw, now: int, key: Key)
    requires WellFormed(s) && key in s && (k == key ==> !HasCreateTime(body))
    ensures var s' := OrSame(Put(s, k, body, now), s); key in s' && CreateTime(s'[key]) == CreateTime(s[key])
  {
  }

  lemma {:induction false} PatchKeepsCreateTime(s: Store, k: Key, patch: Raw, now: int, key: Key)
    requires WellFormed(s) && key in s
    requires k == key && HasCreateTime(patch) ==> DecodeObject(patch).value["create_time"].Null?
    ensures var s' := OrSame(Patch(s, k, patch, now), s); key in s' && CreateTime(s'[key]) == CreateTime(s[key])
  {
    if k == key && DecodeObject(patch).Some? {
      MergeAt(s[key], Object(DecodeObject(patch).value), "create_time");
    }
  }

  lemma {:induction false} TouchKeepsCreateTime(before: Store, after: Store, b: Bundle, prune: set<Kind>, key: Key)
    requires WellFormed(before) && key in before && key in after && Touched(before, after, b, prune)
    requires InBundle(b, key) ==> !HasCreateTime(Group(b, key.0)[key.1])
    ensures CreateTime(after[key]) == CreateTime(before[key])
  {
    assert KeyTouched(before, after, b, prune, key);
    if Get(after, key) != Get(before, key) {
      WrittenKeepsCreateTime(before, key, Group(b, key.0)[key.1], after[key]);
    }
  }

  lemma {:induction false} StepKeepsCreateTime(c: Setup, s: State, e: Event, s': State, key: Key)
    requires WellFormed(s.store) && Step(c, s, e, s')
    requires key in s.store && key in s'.store && !Supplies(c, s, e.call, key)
    ensures CreateTime(s'.store[key]) == CreateTime(s.store[key])
  {
    match e.call
    case PutCall(k, body, now) => PutKeepsCreateTime(s.store, k, body, now, key);
    case PostCall(kind, body, generated, now) =>
      var id := ExtractId(body, c.show);
      if id.Some? {
        PutKeepsCreateTime(s.store, (kind, if id.value == "" then generated else id.value), body, now, key);
      }
    case PatchCall(k, patch, now) => PatchKeepsCreateTime(s.store, k, patch, now, key);
    case DeleteCall(k) =>
    case ApplyCall(b, o) => TouchKeepsCreateTime(s.store, s'.store, b, PruneKinds(b, o), key);
    case SaveCall(id) =>
    case RollbackCall(target, id) =>
      if target in s.history {
        var b := s.history[target].bundle;
        TouchKeepsCreateTime(s.store, s'.store, b, PruneKinds(b, PruneOptions(true, b.managed)), key);
      }
  }

  /** A resource that stays alive through a run keeps its create_time, unless a call supplies one. */
  lemma {:induction false} RunKeepsCreateTime(c: Setup, states: seq<State>, events: seq<Event>, key: Key, k: nat)
    requires Run(c, states, events) && WellFormed(states[0].store) && k < |states|
    requires forall i :: 0 <= i < |states| ==> key in states[i].store
    requires forall i :: 0 <= i < |events| ==> !Supplies(c, states[i], events[i].call, key)
    ensures CreateTime(states[k].store[key]) == CreateTime(states[0].store[key])
  {
    if k > 0 {
      RunKeepsCreateTime(c, states, events, key, k - 1);
      RunKeepsWellFormed(c, states, events, k - 1);
      StepKeepsCreateTime(c, states[k - 1], events[k - 1], states[k], key);
    }
  }

  // ---------------------------------------------------------------- rollback

  /** The entries saved by a run, oldest first. */
  function SavedIn(events: seq<Event>): seq<HistoryEntry> {
    if events == [] then []
    else
      var last := events[|events| - 1];
      SavedIn(events[..|events| - 1]) + (if last.saved.Some? then [last.saved.value] else [])
  }

  lemma {:induction false} StepSaves(c: Setup, s: State, e: Event, s': State)
    requires Step(c, s, e, s')
    ensures s'.history == if e.saved.Some? then Save(s.history, e.saved.value, c.limit) else s.history
  {
  }

  lemma {:induction false} SaveOneMore(h: Entries, es: seq<HistoryEntry>, saved: Option<HistoryEntry>, limit: nat)
    ensures SaveAll(h, es + (if saved.Some? then [saved.value] else []), limit) ==
            if saved.Some? then Save(SaveAll(h, es, limit), saved.value, limit) else SaveAll(h, es, limit)
  {
    if saved.Some? {
      assert (es + [saved.value])[..|es|] == es;
    } else {
      assert es + [] == es;
    }
  }

  /** The history after a run is the history before it with the run's entries saved in turn. */
  lemma {:induction false} HistoryIsSaves(c: Setup, states: seq<State>, events: seq<Event>)
    requires Run(c, states, events)
    ensures states[|events|].history == SaveAll(states[0].history, SavedIn(events), c.limit)
  {
    if events != [] {
      var n := |events| - 1;
      HistoryIsSaves(c, states[..n + 1], events[..n]);
      StepSaves(c, states[n], events[n], states[n + 1]);
      SaveOneMore(states[0].history, SavedIn(events[..n]), events[n].saved, c.limit);
    }
  }

  lemma {:induction false} SavedFirst(events: seq<Event>, e: HistoryEntry)
    requires events != [] && events[0].saved == Some(e)
    ensures SavedIn(events) == [e] + SavedIn(events[1..])
  {
    var n := |events| - 1;
    if n == 0 {
      assert SavedIn(events[..0]) == [] && events[1..] == [];
    } else {
      SavedFirst(events[..n], e);
      assert events[..n][1..] == events[1..][..n - 1];
      assert events[1..][n - 1] == events[n];
    }
  }

  /** A run that starts with a call that saves `e` (a snapshot, or a rollback saving what it
      restored) and ends by rolling back to it. */
  ghost predicate SaveThenRollback(c: Setup, states: seq<State>, events: seq<Event>, e: HistoryEntry) {
    && c.limit > 0 && Run(c, states, events) && WellFormed(states[0].store)
    && |events| >= 2 && events[0].saved == Some(e)
    && events[|events| - 1].call.RollbackCall? && events[|events| - 1].call.target == e.id
    && Newest(states[0].history, e)
    && Increasing([e] + SavedIn(events[1..|events| - 1]))
  }

  lemma {:induction false} FoundIff(c: Setup, states: seq<State>, events: seq<Event>, e: HistoryEntry)
    requires SaveThenRollback(c, states, events, e)
    ensures var n := |events| - 1;
            && (e.id in states[n].history <==> |SavedIn(events[1..n])| < c.limit)
            && (e.id in states[n].history ==> states[n].history[e.id] == e)
  {
    var n := |events| - 1;
    HistoryIsSaves(c, states[..n + 1], events[..n]);
    SavedFirst(events[..n], e);
    assert events[..n][1..] == events[1..n];
    EntrySurvivesIff(states[0].history, e, SavedIn(events[1..n]), c.limit);
  }

  /** Rollback restores.  After any calls in between, with ids in increasing order: if fewer than
      `limit` entries were saved in between, rolling back finds the entry and succeeds; in every
      exported kind the store then has the ids that were saved, with bodies that differ at most in
      update_time, and no other kind has been touched. */
  lemma {:induction false} RollbackRestores(c: Setup, states: seq<State>, events: seq<Event>, e: HistoryEntry, key: Key)
    requires SaveThenRollback(c, states, events, e)
    requires |SavedIn(events[1..|events| - 1])| < c.limit
    ensures events[|events| - 1].saved.Some?
    ensures var saved, before, after := states[1].store, states[|events| - 1].store, states[|events|].store;
            if key.0 in Selection(c.include_) then
              && (key in after <==> key in saved)
              && (key in saved ==> SameButUpdateTime(after[key], saved[key]))
            else Get(after, key) == Get(before, key)
  {
    var n := |events| - 1;
    assert Step(c, states[0], events[0], states[1]) && Step(c, states[n], events[n], states[n + 1]);
    FoundIff(c, states, events, e);
    var saved, before, after, b := states[1].store, states[n].store, states[n + 1].store, e.bundle;
    StepKeepsWellFormed(c, states[0], events[0], states[1]);
    ExportIsApplicable(saved, b.managed, b);
    if key.0 in Selection(c.include_) {
      RestoresExport(saved, before, after, Selection(c.include_), b, key);
    } else {
      UnselectedKindIsUntouched(before, after, b, PruneOptions(true, b.managed), key);
    }
  }

  /** Otherwise the entry is gone, and the rollback is an error that changes nothing. */
  lemma {:induction false} RollbackTooLate(c: Setup, states: seq<State>, events: seq<Event>, e: HistoryEntry)
    requires SaveThenRollback(c, states, events, e)
    requires |SavedIn(events[1..|events| - 1])| >= c.limit
    ensures events[|events| - 1].saved.None? && states[|events|] == states[|events| - 1]
  {
    var n := |events| - 1;
    assert Step(c, states[n], events[n], states[n + 1]);
    FoundIff(c, states, events, e);
  }
}
