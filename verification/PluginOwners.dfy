/**
 Whose plugins a compile builds: the global list, the server, every upstream, service and route, one
 after the other, and how many closers the registry receives from them.
 */
module PluginOwners {
  import opened Config
  import opened Plugins

  /** The id is empty for the global list. */
  datatype Owner = Owner(scope: Scope, id: string)

  predicate Exists(o: Options, w: Owner) {
    match w.scope
    case ScopeGlobal => w.id == ""
    case ScopeServer => w.id in o.servers
    case ScopeUpstream => w.id in o.upstreams
    case ScopeService => w.id in o.services
    case ScopeRoute => w.id in o.routes
  }

  function RefsOf(o: Options, w: Owner): seq<PluginRef> {
    if !Exists(o, w) then []
    else
      match w.scope
      case ScopeGlobal => o.globalPlugins
      case ScopeServer => o.servers[w.id].plugins
      case ScopeUpstream => o.upstreams[w.id].plugins
      case ScopeService => o.services[w.id].plugins
      case ScopeRoute => o.routes[w.id].plugins
  }

  predicate Builds(defs: Definitions, o: Options, w: Owner) {
    Buildable(defs, o, w.scope, RefsOf(o, w))
  }

  function ReceivedOf(defs: Definitions, o: Options, w: Owner): nat {
    Received(defs, o, w.scope, RefsOf(o, w))
  }

  /** The owners visited so far, the latest at the outside. */
  datatype Owners = Nobody | Then(before: Owners, last: Owner)

  /** The ids of a scope that have been visited. */
  function Ids(t: Owners, scope: Scope): set<string> {
    match t
    case Nobody => {}
    case Then(before, w) => if w.scope == scope then Ids(before, scope) + {w.id} else Ids(before, scope)
  }

  /** The closers received from the owners. */
  function ReceivedFrom(defs: Definitions, o: Options, t: Owners): nat {
    match t
    case Nobody => 0
    case Then(before, w) => ReceivedFrom(defs, o, before) + ReceivedOf(defs, o, w)
  }

  /** Owners of the options, none twice. */
  predicate Once(o: Options, t: Owners) {
    t.Then? ==> Once(o, t.before) && Exists(o, t.last) && t.last.id !in Ids(t.before, t.last.scope)
  }

  predicate AllBuild(defs: Definitions, o: Options, t: Owners) {
    t.Then? ==> AllBuild(defs, o, t.before) && Builds(defs, o, t.last)
  }

  /** No owner twice, all but the last built, and the registry has received what they handed over. */
  predicate Accounted(defs: Definitions, o: Options, base: nat, t: Owners, made: nat) {
    Once(o, t) && (t.Then? ==> AllBuild(defs, o, t.before)) && made == base + ReceivedFrom(defs, o, t)
  }

  /** And the last one built as well. */
  predicate Complete(defs: Definitions, o: Options, base: nat, t: Owners, made: nat) {
    Once(o, t) && AllBuild(defs, o, t) && made == base + ReceivedFrom(defs, o, t)
  }

  /** Only owners of one scope have been added. */
  predicate Elsewhere(before: Owners, t: Owners, scope: Scope) {
    forall other: Scope :: other != scope ==> Ids(t, other) == Ids(before, other)
  }

  function IdsIn(o: Options, scope: Scope): set<string> {
    match scope
    case ScopeGlobal => {""}
    case ScopeServer => o.servers.Keys
    case ScopeUpstream => o.upstreams.Keys
    case ScopeService => o.services.Keys
    case ScopeRoute => o.routes.Keys
  }

  /** Every owner of the options has been visited. */
  predicate Everyone(o: Options, t: Owners) {
    forall scope: Scope :: Ids(t, scope) == IdsIn(o, scope)
  }

  /** buildPluginHandlers for one owner. */
  method BuildFor(registry: Registry, o: Options, w: Owner, ghost base: nat, ghost before: Owners)
    returns (ok: bool, hs: seq<PluginHandler>, ghost owners: Owners)
    requires registry.Holding() && Exists(o, w) && w.id !in Ids(before, w.scope)
    requires Complete(registry.definitions, o, base, before, registry.made)
    modifies registry`closers, registry`made
    ensures registry.Holding() && Accounted(registry.definitions, o, base, owners, registry.made)
    ensures owners == Then(before, w)
    ensures ok <==> Builds(registry.definitions, o, w)
    ensures ok ==> Complete(registry.definitions, o, base, owners, registry.made)
    ensures ok ==> ByPriority(registry.definitions, o, w.scope, RefsOf(o, w), hs)
  {
    owners := Then(before, w);
    ok, hs := BuildPluginHandlers(registry, o, w.scope, RefsOf(o, w));
  }

  // ---------------------------------------------------------------- what a complete visit comes to

  function Without(t: Owners, w: Owner): Owners {
    match t
    case Nobody => Nobody
    case Then(before, x) => if x == w then before else Then(Without(before, w), x)
  }

  lemma {:induction false} IdsWithout(o: Options, t: Owners, w: Owner, x: Owner)
    requires Once(o, t) && w.id in Ids(t, w.scope)
    ensures x.id in Ids(Without(t, w), x.scope) <==> x.id in Ids(t, x.scope) && x != w
  {
    if t.last != w { IdsWithout(o, t.before, w, x); }
  }

  lemma {:induction false} TakeOut(defs: Definitions, o: Options, t: Owners, w: Owner)
    requires Once(o, t) && w.id in Ids(t, w.scope)
    ensures ReceivedFrom(defs, o, t) == ReceivedFrom(defs, o, Without(t, w)) + ReceivedOf(defs, o, w)
    ensures Once(o, Without(t, w))
  {
    if t.last != w {
      TakeOut(defs, o, t.before, w);
      IdsWithout(o, t.before, w, t.last);
    }
  }

  lemma {:induction false} SameWithout(o: Options, a: Owners, b: Owners, scope: Scope)
    requires a.Then? && Once(o, a) && Once(o, b) && forall s: Scope :: Ids(a, s) == Ids(b, s)
    ensures Ids(a.before, scope) == Ids(Without(b, a.last), scope)
  {
    assert Ids(a, scope) == Ids(b, scope) && Ids(a, a.last.scope) == Ids(b, a.last.scope);
    forall id ensures id in Ids(a.before, scope) <==> id in Ids(Without(b, a.last), scope) {
      IdsWithout(o, b, a.last, Owner(scope, id));
    }
  }

  /** Two visits of the same owners receive the same number of closers, whatever the order. */
  lemma {:induction false} OrderOfOwners(defs: Definitions, o: Options, a: Owners, b: Owners)
    requires Once(o, a) && Once(o, b) && forall scope: Scope :: Ids(a, scope) == Ids(b, scope)
    ensures ReceivedFrom(defs, o, a) == ReceivedFrom(defs, o, b)
  {
    if a.Nobody? {
      assert b.Then? ==> b.last.id in Ids(b, b.last.scope);
    } else {
      forall scope: Scope ensures Ids(a.before, scope) == Ids(Without(b, a.last), scope) {
        SameWithout(o, a, b, scope);
      }
      assert Ids(a, a.last.scope) == Ids(b, a.last.scope);
      TakeOut(defs, o, b, a.last);
      OrderOfOwners(defs, o, a.before, Without(b, a.last));
    }
  }

  /** Owners that all build hand over the closer of every ref that makes one. */
  lemma {:induction false} BuiltHandsOverAll(defs: Definitions, o: Options, w: Owner)
    requires Builds(defs, o, w)
    ensures ReceivedOf(defs, o, w) == CloserRefs(defs, o, RefsOf(o, w))
  {
    var refs := RefsOf(o, w);
    assert refs[..|refs|] == refs;
    ReceivedUpTo(defs, o, w.scope, refs, |refs|);
  }
}
