/**
 The plugin registry of internal/plugin/plugin.go and buildPluginHandlers of
 internal/gateway/gateway.go.  A closer is identified by the order in which its registry received it.
 */
module Plugins {
  import opened Config
  import Lifecycle = SnapshotLifecycle

  datatype Scope = ScopeGlobal | ScopeServer | ScopeRoute | ScopeService | ScopeUpstream

  /** What a factory returns for the given params: an error, or a handler and maybe a closer. */
  datatype Made = Fails | Makes(hasCloser: bool)

  datatype Definition = Definition(name: string, scopes: seq<Scope>, priority: int, factory: string -> Made)

  type Definitions = map<string, Definition>

  /** The first n closers of a registry. */
  function Closers(n: nat): (r: seq<nat>)
    ensures |r| == n && forall i :: 0 <= i < n ==> r[i] == i
  {
    seq(n, i => i)
  }

  lemma {:induction false} ReverseAppend(s: seq<nat>, x: nat)
    ensures Lifecycle.Reverse(s + [x]) == [x] + Lifecycle.Reverse(s)
  {
    if s == [] {
      assert [x][1..] == [] && s + [x] == [x];
    } else {
      ReverseAppend(s[1..], x);
      assert (s + [x])[1..] == s[1..] + [x];
    }
  }

  class Registry {
    var definitions: Definitions
    var closers: seq<nat>
    var made: nat            // closers received so far
    var closed: seq<nat>     // closers that have been closed, in that order

    /** Nothing has been closed, and every closer received is still held. */
    ghost predicate Holding()
      reads this
    {
      closers == Closers(made) && closed == []
    }

    constructor ()
      ensures Holding() && definitions == map[] && made == 0
    {
      definitions, closers, made, closed := map[], [], 0, [];
    }

    /** Register refuses an empty name, a missing factory, an empty scope list and a taken name. */
    method Register(name: string, scopes: seq<Scope>, priority: int, factory: Option<string -> Made>) returns (ok: bool)
      modifies `definitions
      ensures ok <==> name != "" && factory.Some? && scopes != [] && name !in old(definitions)
      ensures definitions == if ok then old(definitions)[name := Definition(name, scopes, priority, factory.value)]
                             else old(definitions)
    {
      if name == "" || factory.None? || scopes == [] || name in definitions { return false; }
      definitions := definitions[name := Definition(name, scopes, priority, factory.value)];
      return true;
    }

    /** addCloser; a nil closer is ignored. */
    method AddCloser(present: bool)
      modifies `closers, `made
      ensures closers == old(closers) + (if present then [old(made)] else [])
      ensures made == old(made) + if present then 1 else 0
      ensures old(Holding()) ==> Holding()
    {
      if present { closers, made := closers + [made], made + 1; }
    }

    /** Close runs from the last closer to the first, each once, and forgets them. */
    method Close()
      modifies `closers, `closed
      ensures closed == old(closed) + Lifecycle.Reverse(old(closers)) && closers == []
    {
      var i := |closers|;
      assert closers[..i] == closers;
      while i > 0
        invariant 0 <= i <= |closers| && closers == old(closers)
        invariant closed + Lifecycle.Reverse(closers[..i]) == old(closed) + Lifecycle.Reverse(closers)
      {
        i := i - 1;
        assert closers[..i + 1] == closers[..i] + [closers[i]];
        ReverseAppend(closers[..i], closers[i]);
        closed := closed + [closers[i]];
      }
      closers := [];
    }
  }

  // ---------------------------------------------------------------- what is built for a list of refs

  /** A ref's name and params, looked up if it uses a named plugin. */
  function NameOf(o: Options, ref: PluginRef): string {
    if ref.use == "" then ref.name else if ref.use in o.plugins then o.plugins[ref.use].name else ""
  }

  function ParamsOf(o: Options, ref: PluginRef): string {
    if ref.use == "" then ref.params else if ref.use in o.plugins then o.plugins[ref.use].params else ""
  }

  /** What a ref stands for: its own name and params, or those of the plugin it uses; nothing if there is
      no such plugin. */
  predicate StandsFor(o: Options, ref: PluginRef, name: string, params: string) {
    if ref.use == "" then ref.name == name && ref.params == params
    else if ref.use in o.plugins then o.plugins[ref.use].name == name && o.plugins[ref.use].params == params
    else name == "" && params == ""
  }

  predicate Registered(defs: Definitions, o: Options, ref: PluginRef) {
    NameOf(o, ref) in defs
  }

  /** A ref to an unregistered plugin is skipped; any other must suit the scope and build. */
  predicate RefBuilds(defs: Definitions, o: Options, scope: Scope, ref: PluginRef) {
    Registered(defs, o, ref) ==>
      scope in defs[NameOf(o, ref)].scopes && !defs[NameOf(o, ref)].factory(ParamsOf(o, ref)).Fails?
  }

  predicate Buildable(defs: Definitions, o: Options, scope: Scope, refs: seq<PluginRef>) {
    forall i :: 0 <= i < |refs| ==> RefBuilds(defs, o, scope, refs[i])
  }

  function PriorityOf(defs: Definitions, o: Options, ref: PluginRef): int {
    if Registered(defs, o, ref) then defs[NameOf(o, ref)].priority else 0
  }

  /** The ref's factory makes a closer. */
  predicate MakesCloser(defs: Definitions, o: Options, ref: PluginRef) {
    Registered(defs, o, ref) && defs[NameOf(o, ref)].factory(ParamsOf(o, ref)) == Makes(true)
  }

  /** How many closers a list of refs hands over: those made before the first ref that does not build. */
  function Received(defs: Definitions, o: Options, scope: Scope, refs: seq<PluginRef>): nat {
    if refs == [] || !RefBuilds(defs, o, scope, refs[0]) then 0
    else Received(defs, o, scope, refs[1..]) + if MakesCloser(defs, o, refs[0]) then 1 else 0
  }

  /** How many refs of a list make a closer. */
  function CloserRefs(defs: Definitions, o: Options, refs: seq<PluginRef>): nat {
    if refs == [] then 0
    else CloserRefs(defs, o, refs[1..]) + if MakesCloser(defs, o, refs[0]) then 1 else 0
  }

  /** A list that builds hands over all its closers, and one that fails at the n-th ref those of the refs before it. */
  lemma {:induction false} ReceivedUpTo(defs: Definitions, o: Options, scope: Scope, refs: seq<PluginRef>, n: nat)
    requires n <= |refs| && Buildable(defs, o, scope, refs[..n])
    requires n < |refs| ==> !RefBuilds(defs, o, scope, refs[n])
    ensures Received(defs, o, scope, refs) == CloserRefs(defs, o, refs[..n])
  {
    if n > 0 {
      assert refs[..n][0] == refs[0] && refs[..n][1..] == refs[1..][..n - 1];
      var rest := refs[1..][..n - 1];
      forall i | 0 <= i < |rest| ensures RefBuilds(defs, o, scope, rest[i]) {
        assert refs[..n][i + 1] == rest[i];
      }
      ReceivedUpTo(defs, o, scope, refs[1..], n - 1);
    }
  }

  datatype PluginHandler = PluginHandler(name: string, params: string, scope: Scope)

  function HandlerOf(o: Options, scope: Scope, ref: PluginRef): PluginHandler {
    PluginHandler(NameOf(o, ref), ParamsOf(o, ref), scope)
  }

  /** Higher priority first, and at equal priority the earlier ref. */
  predicate Before(defs: Definitions, o: Options, refs: seq<PluginRef>, i: nat, j: nat)
    requires i < |refs| && j < |refs|
  {
    var p, q := PriorityOf(defs, o, refs[i]), PriorityOf(defs, o, refs[j]);
    p > q || (p == q && i < j)
  }

  predicate Indices(refs: seq<PluginRef>, order: seq<nat>) {
    forall k :: 0 <= k < |order| ==> order[k] < |refs|
  }

  predicate Ordered(defs: Definitions, o: Options, refs: seq<PluginRef>, order: seq<nat>)
    requires Indices(refs, order)
  {
    forall a, b :: 0 <= a < b < |order| ==> Before(defs, o, refs, order[a], order[b])
  }

  /** The positions of the registered refs, each once, in priority order. */
  ghost predicate IsOrder(defs: Definitions, o: Options, refs: seq<PluginRef>, order: seq<nat>) {
    && Indices(refs, order) && Ordered(defs, o, refs, order)
    && forall i :: 0 <= i < |refs| && Registered(defs, o, refs[i]) <==> i in order
  }

  ghost predicate ByPriority(defs: Definitions, o: Options, scope: Scope, refs: seq<PluginRef>,
                             hs: seq<PluginHandler>) {
    exists order: seq<nat> :: IsOrder(defs, o, refs, order) && HandlersIn(o, scope, refs, order, hs)
  }

  predicate HandlersIn(o: Options, scope: Scope, refs: seq<PluginRef>, order: seq<nat>, hs: seq<PluginHandler>)
    requires Indices(refs, order)
  {
    |hs| == |order| && forall k :: 0 <= k < |hs| ==> hs[k] == HandlerOf(o, scope, refs[order[k]])
  }

  /** The same without the functions of the sort: the handlers run by descending priority of their
      plugins, and refs of equal priority in the order of the list; each stands for its ref, and every
      ref to a registered plugin has one. */
  ghost predicate RunInOrder(defs: Definitions, o: Options, scope: Scope, refs: seq<PluginRef>,
                             hs: seq<PluginHandler>, order: seq<nat>) {
    && |order| == |hs|
    && (forall k :: 0 <= k < |hs| ==>
          order[k] < |refs| && StandsFor(o, refs[order[k]], hs[k].name, hs[k].params) &&
          hs[k].name in defs && hs[k].scope == scope)
    && (forall a, b :: 0 <= a < b < |hs| ==>
          var p, q := defs[hs[a].name].priority, defs[hs[b].name].priority;
          p > q || (p == q && order[a] < order[b]))
    && (forall i: nat, name, params ::
          i < |refs| && StandsFor(o, refs[i], name, params) && name in defs ==> i in order)
  }

  lemma {:induction false} HandlersMeaning(defs: Definitions, o: Options, scope: Scope, refs: seq<PluginRef>,
                                           hs: seq<PluginHandler>) returns (order: seq<nat>)
    requires ByPriority(defs, o, scope, refs, hs)
    ensures RunInOrder(defs, o, scope, refs, hs, order)
  {
    order :| IsOrder(defs, o, refs, order) && HandlersIn(o, scope, refs, order, hs);
    forall k | 0 <= k < |hs|
      ensures order[k] < |refs| && StandsFor(o, refs[order[k]], hs[k].name, hs[k].params) &&
              hs[k].name in defs && hs[k].scope == scope
    {
      HandlerAt(defs, o, scope, refs, order, hs, k);
    }
    forall a, b | 0 <= a < b < |hs|
      ensures var p, q := defs[hs[a].name].priority, defs[hs[b].name].priority;
              p > q || (p == q && order[a] < order[b])
    {
      HandlerAt(defs, o, scope, refs, order, hs, a);
      HandlerAt(defs, o, scope, refs, order, hs, b);
      assert Before(defs, o, refs, order[a], order[b]);
    }
    forall i: nat, name, params | i < |refs| && StandsFor(o, refs[i], name, params) && name in defs
      ensures i in order
    {
      StandsForIff(o, refs[i], name, params);
    }
  }

  lemma {:induction false} StandsForIff(o: Options, ref: PluginRef, name: string, params: string)
    ensures StandsFor(o, ref, name, params) <==> name == NameOf(o, ref) && params == ParamsOf(o, ref)
  {
  }

  lemma {:induction false} HandlerAt(defs: Definitions, o: Options, scope: Scope, refs: seq<PluginRef>,
                                     order: seq<nat>, hs: seq<PluginHandler>, k: nat)
    requires IsOrder(defs, o, refs, order) && HandlersIn(o, scope, refs, order, hs) && k < |hs|
    ensures order[k] < |refs| && StandsFor(o, refs[order[k]], hs[k].name, hs[k].params)
    ensures hs[k].name in defs && hs[k].scope == scope
    ensures PriorityOf(defs, o, refs[order[k]]) == defs[hs[k].name].priority
  {
    assert order[k] in order;
    StandsForIff(o, refs[order[k]], hs[k].name, hs[k].params);
  }

  /** There is only one such order. */
  lemma {:induction false} OrderIsUnique(defs: Definitions, o: Options, refs: seq<PluginRef>, a: seq<nat>, b: seq<nat>)
    requires Indices(refs, a) && Indices(refs, b) && Ordered(defs, o, refs, a) && Ordered(defs, o, refs, b)
    requires forall i :: i in a <==> i in b
    ensures a == b
  {
    assert b != [] ==> b[0] in b;
    if a != [] {
      assert a[0] in b;
      var k :| 0 <= k < |b| && b[k] == a[0];
      assert b[0] in a;
      var m :| 0 <= m < |a| && a[m] == b[0];
      assert a[0] == b[0];
      assert a == [a[0]] + a[1..] && b == [b[0]] + b[1..];
      forall i ensures i in a[1..] <==> i in b[1..] {
        if i in a[1..] { TailMember(defs, o, refs, a, i); }
        if i in b[1..] { TailMember(defs, o, refs, b, i); }
      }
      OrderIsUnique(defs, o, refs, a[1..], b[1..]);
    }
  }

  lemma {:induction false} TailMember(defs: Definitions, o: Options, refs: seq<PluginRef>, a: seq<nat>, i: nat)
    requires a != [] && Indices(refs, a) && Ordered(defs, o, refs, a) && i in a[1..]
    ensures i in a && i != a[0]
  {
    var k :| 0 <= k < |a[1..]| && a[1..][k] == i;
    assert Before(defs, o, refs, a[0], a[k + 1]);
  }

  // ---------------------------------------------------------------- buildPluginHandlers

  function InsertAt(order: seq<nat>, k: nat, i: nat): (r: seq<nat>)
    requires k <= |order|
    ensures |r| == |order| + 1
    ensures forall j :: 0 <= j < |r| ==> r[j] == if j < k then order[j] else if j == k then i else order[j - 1]
    ensures forall x :: x in r <==> x in order || x == i
  {
    assert order == order[..k] + order[k..];
    order[..k] + [i] + order[k..]
  }

  /** One step of the stable sort: the ref goes behind everything it is not before. */
  method Insert(defs: Definitions, o: Options, refs: seq<PluginRef>, order: seq<nat>, i: nat) returns (r: seq<nat>)
    requires i < |refs| && Indices(refs, order) && Ordered(defs, o, refs, order)
    requires forall k :: 0 <= k < |order| ==> order[k] < i
    ensures Indices(refs, r) && Ordered(defs, o, refs, r)
    ensures forall x :: x in r <==> x in order || x == i
  {
    var k := |order|;
    while k > 0 && !Before(defs, o, refs, order[k - 1], i)
      invariant 0 <= k <= |order|
      invariant forall j :: k <= j < |order| ==> Before(defs, o, refs, i, order[j])
    {
      k := k - 1;
    }
    if k > 0 {
      forall j | 0 <= j < k ensures Before(defs, o, refs, order[j], i) {
        assert j < k - 1 ==> Before(defs, o, refs, order[j], order[k - 1]);
      }
    }
    r := InsertAt(order, k, i);
  }

  /** The loop over the refs of one list, and the sort.  It fails exactly if a registered plugin
      does not suit the scope or does not build; the handlers are those of the registered refs in
      priority order.  The registry receives the closer of every ref up to the failing one. */
  method BuildPluginHandlers(registry: Registry, o: Options, scope: Scope, refs: seq<PluginRef>)
    returns (ok: bool, hs: seq<PluginHandler>)
    requires registry.Holding()
    modifies registry`closers, registry`made
    ensures registry.Holding()
    ensures registry.made == old(registry.made) + Received(registry.definitions, o, scope, refs)
    ensures ok <==> Buildable(registry.definitions, o, scope, refs)
    ensures ok ==> ByPriority(registry.definitions, o, scope, refs, hs)
  {
    var defs := registry.definitions;
    var order: seq<nat> := [];
    assert refs[0..] == refs;
    for i := 0 to |refs|
      invariant registry.Holding()
      invariant registry.made + Received(defs, o, scope, refs[i..]) ==
                old(registry.made) + Received(defs, o, scope, refs)
      invariant forall j :: 0 <= j < i ==> RefBuilds(defs, o, scope, refs[j])
      invariant Indices(refs, order) && Ordered(defs, o, refs, order)
      invariant forall x :: x in order <==> 0 <= x < i && Registered(defs, o, refs[x])
    {
      assert refs[i..][0] == refs[i] && refs[i..][1..] == refs[i + 1..];
      if Registered(defs, o, refs[i]) {
        var d := defs[NameOf(o, refs[i])];
        if scope !in d.scopes { return false, []; }
        var m := d.factory(ParamsOf(o, refs[i]));
        if m.Fails? { return false, []; }
        registry.AddCloser(m.hasCloser);
        forall k | 0 <= k < |order| ensures order[k] < i { assert order[k] in order; }
        order := Insert(defs, o, refs, order, i);
      }
    }
    hs := seq(|order|, k requires 0 <= k < |order| => HandlerOf(o, scope, refs[order[k]]));
    assert IsOrder(defs, o, refs, order) && HandlersIn(o, scope, refs, order, hs);
    ok := true;
  }
}
