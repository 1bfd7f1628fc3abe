/**
 What the path patterns of a route mean, stated on their text (compilePath of
 internal/router/router.go), and what a route as a whole fits.
 */
module PathMeaning {
  import opened Config
  import opened Text
  import opened RouteTable
  import opened HostMatch

  // ---------------------------------------------------------------- trimming

  /** A blank: the space, and the control characters from the tab to the carriage return. */
  predicate White(c: char) {
    c == ' ' || 9 <= c as int <= 13
  }

  predicate Blank(s: string) {
    forall i :: 0 <= i < |s| ==> White(s[i])
  }

  /** `t` is the text between the outer blanks of `s`. */
  ghost predicate Trimmed(s: string, t: string) {
    && (exists l: string, r: string :: s == l + t + r && Blank(l) && Blank(r))
    && (t != "" ==> !White(t[0]) && !White(t[|t| - 1]))
  }

  lemma {:induction false} LeftOf(s: string) returns (l: string)
    ensures s == l + TrimLeft(s) && Blank(l)
    ensures TrimLeft(s) != "" ==> !White(TrimLeft(s)[0])
  {
    if s != "" && IsSpace(s[0]) {
      var rest := LeftOf(s[1..]);
      l := [s[0]] + rest;
    } else {
      l := "";
    }
  }

  lemma {:induction false} RightOf(s: string) returns (r: string)
    ensures s == TrimRight(s) + r && Blank(r)
    ensures TrimRight(s) != "" ==> TrimRight(s)[0] == s[0] && !White(TrimRight(s)[|TrimRight(s)| - 1])
  {
    if s != "" && IsSpace(s[|s| - 1]) {
      var rest := RightOf(s[..|s| - 1]);
      r := rest + [s[|s| - 1]];
    } else {
      r := "";
    }
  }

  lemma {:induction false} TrimIsTrimmed(s: string)
    ensures Trimmed(s, TrimSpace(s))
  {
    var l := LeftOf(s);
    var r := RightOf(TrimLeft(s));
    assert s == l + TrimSpace(s) + r;
  }

  lemma {:induction false} LeftSkips(l: string, u: string)
    requires Blank(l)
    ensures TrimLeft(l + u) == TrimLeft(u)
  {
    if l == "" {
      assert l + u == u;
    } else {
      assert (l + u)[0] == l[0] && (l + u)[1..] == l[1..] + u;
      LeftSkips(l[1..], u);
    }
  }

  lemma {:induction false} RightSkips(u: string, r: string)
    requires Blank(r)
    ensures TrimRight(u + r) == TrimRight(u)
  {
    if r == "" {
      assert u + r == u;
    } else {
      var n := |r| - 1;
      assert (u + r)[|u| + n] == r[n] && (u + r)[..|u| + n] == u + r[..n];
      RightSkips(u, r[..n]);
    }
  }

  /** The blanks around a text are determined. */
  lemma {:induction false} TrimmedIsTrim(s: string, t: string)
    requires Trimmed(s, t)
    ensures t == TrimSpace(s)
  {
    var l: string, r: string :| s == l + t + r && Blank(l) && Blank(r);
    assert s == l + (t + r);
    LeftSkips(l, t + r);
    if t == "" {
      LeftSkips(r, "");
      assert t + r == r + "";
    } else {
      assert (t + r)[0] == t[0];
      RightSkips(t, r);
    }
  }

  lemma {:induction false} TrimMeaning(s: string, t: string)
    ensures Trimmed(s, t) <==> t == TrimSpace(s)
  {
    TrimIsTrimmed(s);
    if Trimmed(s, t) { TrimmedIsTrim(s, t); }
  }

  // ---------------------------------------------------------------- the forms of a pattern

  /** "= x" */
  ghost predicate ExactText(text: string, x: string) {
    exists rest: string :: Trimmed(text, "=" + rest) && Trimmed(rest, x)
  }

  /** "~* e" */
  ghost predicate FoldedText(text: string, e: string) {
    exists rest: string :: Trimmed(text, "~*" + rest) && Trimmed(rest, e)
  }

  /** "~ e" */
  ghost predicate RegexText(text: string, e: string) {
    exists rest: string :: Trimmed(text, "~" + rest) && !HasPrefix(rest, "*") && Trimmed(rest, e)
  }

  predicate Marked(t: string) {
    HasPrefix(t, "=") || HasPrefix(t, "~")
  }

  /** "x*", or x without any marker */
  ghost predicate PrefixText(text: string, x: string) {
    || (Trimmed(text, x + "*") && !Marked(x + "*"))
    || (Trimmed(text, x) && x != "" && !Marked(x) && !HasSuffix(x, "*"))
  }

  datatype Form = Nothing | Exact(x: string) | Folded(e: string) | Regex(e: string) | Prefix(x: string)

  /** How a pattern is to be read. */
  ghost predicate HasForm(text: string, f: Form) {
    match f
    case Nothing => Trimmed(text, "")
    case Exact(x) => ExactText(text, x)
    case Folded(e) => FoldedText(text, e)
    case Regex(e) => RegexText(text, e)
    case Prefix(x) => PrefixText(text, x)
  }

  predicate Accepts(f: Form, engine: Engine, path: string) {
    match f
    case Nothing => false
    case Exact(x) => path == x
    case Folded(e) => engine.matches("(?i)" + e, path)
    case Regex(e) => engine.matches(e, path)
    case Prefix(x) => HasPrefix(path, x)
  }

  /** How strong a match by this form is. */
  function Strength(f: Form): nat {
    match f
    case Nothing => 0
    case Exact(x) => 300_000 + |x|
    case Folded(e) => 200_000 + |e|
    case Regex(e) => 200_000 + |e|
    case Prefix(x) => 100_000 + |x|
  }

  /** A blank pattern is refused, and a regex that is empty or does not compile. */
  predicate Refused(f: Form, engine: Engine) {
    match f
    case Nothing => true
    case Exact(_) => false
    case Folded(e) => e == "" || !engine.compiles("(?i)" + e)
    case Regex(e) => e == "" || !engine.compiles(e)
    case Prefix(_) => false
  }

  lemma {:induction false} ExactMeaning(text: string, x: string)
    ensures ExactText(text, x) <==>
            var raw := TrimSpace(text); raw != "" && raw[0] == '=' && x == TrimSpace(raw[1..])
  {
    var raw := TrimSpace(text);
    if rest: string :| Trimmed(text, "=" + rest) && Trimmed(rest, x) {
      TrimMeaning(text, "=" + rest);
      TrimMeaning(rest, x);
      assert raw[1..] == rest;
    }
    if raw != "" && raw[0] == '=' && x == TrimSpace(raw[1..]) {
      assert "=" + raw[1..] == raw;
      TrimMeaning(text, "=" + raw[1..]);
      TrimMeaning(raw[1..], x);
    }
  }

  lemma {:induction false} FoldedMeaning(text: string, e: string)
    ensures FoldedText(text, e) <==>
            var raw := TrimSpace(text); |raw| > 1 && raw[0] == '~' && raw[1] == '*' && e == TrimSpace(raw[2..])
  {
    var raw := TrimSpace(text);
    if rest: string :| Trimmed(text, "~*" + rest) && Trimmed(rest, e) {
      TrimMeaning(text, "~*" + rest);
      TrimMeaning(rest, e);
      assert raw[2..] == rest;
    }
    if |raw| > 1 && raw[0] == '~' && raw[1] == '*' && e == TrimSpace(raw[2..]) {
      assert "~*" + raw[2..] == raw;
      TrimMeaning(text, "~*" + raw[2..]);
      TrimMeaning(raw[2..], e);
    }
  }

  lemma {:induction false} RegexMeaning(text: string, e: string)
    ensures RegexText(text, e) <==>
            var raw := TrimSpace(text);
            raw != "" && raw[0] == '~' && !(|raw| > 1 && raw[1] == '*') && e == TrimSpace(raw[1..])
  {
    var raw := TrimSpace(text);
    if rest: string :| Trimmed(text, "~" + rest) && !HasPrefix(rest, "*") && Trimmed(rest, e) {
      TrimMeaning(text, "~" + rest);
      TrimMeaning(rest, e);
      assert raw[1..] == rest;
      assert rest != "" && rest[0] == '*' ==> HasPrefix(rest, "*");
    }
    if raw != "" && raw[0] == '~' && !(|raw| > 1 && raw[1] == '*') && e == TrimSpace(raw[1..]) {
      assert "~" + raw[1..] == raw;
      TrimMeaning(text, "~" + raw[1..]);
      TrimMeaning(raw[1..], e);
    }
  }

  lemma {:induction false} MarkedIff(t: string)
    ensures Marked(t) <==> t != "" && (t[0] == '=' || t[0] == '~')
    ensures HasSuffix(t, "*") <==> t != "" && t[|t| - 1] == '*'
  {
  }

  lemma {:induction false} PrefixMeaning(text: string, x: string)
    ensures PrefixText(text, x) <==>
            var raw := TrimSpace(text);
            raw != "" && raw[0] != '=' && raw[0] != '~' &&
            x == if raw[|raw| - 1] == '*' then raw[..|raw| - 1] else raw
  {
    var raw := TrimSpace(text);
    TrimMeaning(text, x + "*");
    TrimMeaning(text, x);
    MarkedIff(x + "*");
    MarkedIff(x);
    if raw == x + "*" { assert raw[..|raw| - 1] == x; }
    if raw != "" && raw[|raw| - 1] == '*' { assert raw[..|raw| - 1] + "*" == raw; }
  }

  // ---------------------------------------------------------------- what compilePath makes of them

  function FormOf(text: string): Form {
    var raw := TrimSpace(text);
    if raw == "" then Nothing
    else if raw[0] == '=' then Exact(TrimSpace(raw[1..]))
    else if raw[0] == '~' && |raw| > 1 && raw[1] == '*' then Folded(TrimSpace(raw[2..]))
    else if raw[0] == '~' then Regex(TrimSpace(raw[1..]))
    else Prefix(if raw[|raw| - 1] == '*' then raw[..|raw| - 1] else raw)
  }

  /** Every text has exactly one form. */
  lemma {:induction false} FormMeaning(text: string, f: Form)
    ensures HasForm(text, f) <==> f == FormOf(text)
  {
    match f
    case Nothing => TrimMeaning(text, "");
    case Exact(x) => ExactMeaning(text, x);
    case Folded(e) => FoldedMeaning(text, e);
    case Regex(e) => RegexMeaning(text, e);
    case Prefix(x) => PrefixMeaning(text, x);
  }

  /** compilePath refuses exactly what it should; and what it makes of a text accepts exactly the
      request paths that the text stands for, with that strength. */
  lemma {:induction false} PatternMeaning(text: string, f: Form, engine: Engine, path: string)
    requires HasForm(text, f)
    ensures CompilePath(text, engine).None? <==> Refused(f, engine)
    ensures CompilePath(text, engine).Some? ==>
              var c := CompilePath(text, engine).value;
              (PathMatches(c, path, engine) <==> Accepts(f, engine, path)) && PathScore(c) == Strength(f)
  {
    FormMeaning(text, f);
  }

  // ---------------------------------------------------------------- routes

  /** The text, read in its form, accepts the path. */
  ghost predicate TextFits(text: string, f: Form, engine: Engine, path: string) {
    HasForm(text, f) && Accepts(f, engine, path)
  }

  ghost predicate TextOk(text: string, engine: Engine) {
    forall f :: HasForm(text, f) ==> !Refused(f, engine)
  }

  /** Some pattern of the route accepts the path. */
  ghost predicate SomePathFits(route: RouteOptions, engine: Engine, path: string) {
    exists k: nat, f: Form :: k < |route.paths| && TextFits(route.paths[k], f, engine, path)
  }

  /** What a route of the options asks of a request; `wild` reads an empty method name as any. */
  ghost predicate Fits(route: RouteOptions, wild: bool, q: Request, engine: Engine) {
    && (|| route.methods == [] || (wild && "" in route.methods)
        || exists k :: 0 <= k < |route.methods| && Upper(route.methods[k]) == Upper(q.verb))
    && (route.hosts == [] || exists k :: 0 <= k < |route.hosts| && HostFits(route.hosts[k], q.host))
    && SomePathFits(route, engine, q.path)
  }

  /** What Add accepts: an id, and patterns of which none is refused. */
  ghost predicate Addable(route: RouteOptions, engine: Engine) {
    route.id != "" && route.paths != [] &&
    forall k :: 0 <= k < |route.paths| ==> TextOk(route.paths[k], engine)
  }

  lemma {:induction false} CompilesAll(texts: seq<string>, engine: Engine)
    ensures CompilePaths(texts, engine).Some? <==>
            forall k :: 0 <= k < |texts| ==> CompilePath(texts[k], engine).Some?
  {
    if texts != [] { CompilesAll(texts[..|texts| - 1], engine); }
  }

  lemma {:induction false} AddableIff(route: RouteOptions, engine: Engine)
    ensures CompileRoute(route, engine).Some? <==> Addable(route, engine)
    ensures CompileRoute(route, engine).Some? ==> CompileRoute(route, engine).value.route == route
  {
    CompilesAll(route.paths, engine);
    forall k | 0 <= k < |route.paths|
      ensures CompilePath(route.paths[k], engine).Some? <==> TextOk(route.paths[k], engine)
    {
      TextOkIff(route.paths[k], engine);
    }
  }

  lemma {:induction false} TextOkIff(text: string, engine: Engine)
    ensures CompilePath(text, engine).Some? <==> TextOk(text, engine)
  {
    FormMeaning(text, FormOf(text));
    PatternMeaning(text, FormOf(text), engine, "");
    forall f | HasForm(text, f) ensures f == FormOf(text) {
      FormMeaning(text, f);
    }
  }

  /** The compiled paths accept what the texts stand for. */
  lemma {:induction false} PathOfRoute(route: RouteOptions, engine: Engine, path: string, k: nat)
    requires CompileRoute(route, engine).Some? && k < |route.paths|
    ensures var c, f := CompileRoute(route, engine).value.paths[k], FormOf(route.paths[k]);
            (PathMatches(c, path, engine) <==> Accepts(f, engine, path)) && PathScore(c) == Strength(f)
  {
    FormMeaning(route.paths[k], FormOf(route.paths[k]));
    PatternMeaning(route.paths[k], FormOf(route.paths[k]), engine, path);
  }

  lemma {:induction false} FitsByForm(text: string, f: Form, engine: Engine, path: string)
    ensures TextFits(text, f, engine, path) <==> f == FormOf(text) && Accepts(f, engine, path)
  {
    FormMeaning(text, f);
  }

  /** A positive best score is the strength of a pattern that accepts the path. */
  lemma {:induction false} BestIsAttained(route: RouteOptions, engine: Engine, path: string) returns (k: nat)
    requires CompileRoute(route, engine).Some?
    requires BestPath(CompileRoute(route, engine).value, path, engine) != 0
    ensures k < |route.paths| && TextFits(route.paths[k], FormOf(route.paths[k]), engine, path)
    ensures Strength(FormOf(route.paths[k])) == BestPath(CompileRoute(route, engine).value, path, engine)
  {
    var r := CompileRoute(route, engine).value;
    BestPathIsMax(r.paths, |r.paths|, path, engine);
    k :| k < |r.paths| && PathMatches(r.paths[k], path, engine) && PathScore(r.paths[k]) == BestPath(r, path, engine);
    PathOfRoute(route, engine, path, k);
    FitsByForm(route.paths[k], FormOf(route.paths[k]), engine, path);
  }

  /** No pattern that accepts the path is stronger than the best score. */
  lemma {:induction false} NoneIsStronger(route: RouteOptions, engine: Engine, path: string, k: nat, f: Form)
    requires CompileRoute(route, engine).Some? && k < |route.paths| && TextFits(route.paths[k], f, engine, path)
    ensures 0 < Strength(f) <= BestPath(CompileRoute(route, engine).value, path, engine)
  {
    var r := CompileRoute(route, engine).value;
    FitsByForm(route.paths[k], f, engine, path);
    PathOfRoute(route, engine, path, k);
    BestPathIsMax(r.paths, |r.paths|, path, engine);
  }

  /** The best score is positive exactly if some pattern accepts the path. */
  lemma {:induction false} BestPathMeaning(route: RouteOptions, engine: Engine, path: string)
    requires CompileRoute(route, engine).Some?
    ensures BestPath(CompileRoute(route, engine).value, path, engine) != 0 <==> SomePathFits(route, engine, path)
  {
    if BestPath(CompileRoute(route, engine).value, path, engine) != 0 {
      var k := BestIsAttained(route, engine, path);
    }
    if k: nat, f: Form :| k < |route.paths| && TextFits(route.paths[k], f, engine, path) {
      NoneIsStronger(route, engine, path, k, f);
    }
  }

  /** A compiled route matches a request exactly if the route of the options fits it. */
  lemma {:induction false} RouteMeaning(route: RouteOptions, engine: Engine, q: Request)
    requires CompileRoute(route, engine).Some?
    ensures RouteMatches(CompileRoute(route, engine).value, q, engine) <==> Fits(route, false, q, engine)
  {
    BestPathMeaning(route, engine, q.path);
    MethodMeaning(route.methods, q.verb);
    HostsMeaning(route.hosts, q.host);
  }

  lemma {:induction false} MethodMeaning(methods: seq<string>, verb: string)
    ensures MethodMatches(methods, verb) <==>
            methods == [] || exists k :: 0 <= k < |methods| && Upper(methods[k]) == Upper(verb)
  {
    forall k | 0 <= k < |methods| ensures EqualFold(methods[k], verb) <==> Upper(methods[k]) == Upper(verb) {
      FoldIsUpper(methods[k], verb);
    }
  }

  lemma {:induction false} HostsMeaning(hosts: seq<string>, host: string)
    ensures HostMatches(hosts, host) <==> hosts == [] || exists k :: 0 <= k < |hosts| && HostFits(hosts[k], host)
  {
    forall k | 0 <= k < |hosts| ensures HostPatternMatches(hosts[k], host) <==> HostFits(hosts[k], host) {
      HostMeaning(hosts[k], host);
    }
  }
}
