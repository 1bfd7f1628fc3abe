/**
 Label rendering of internal/observability/observability.go: a tuple of label values becomes one
 string, the key of every counter and histogram.  Rendering is injective for all values, escapes
 included; the simple parser that Stats uses recovers the labels exactly for clean values.
 */
module Labels {

  // ---------------------------------------------------------------- rendering

  predicate Special(c: char) {
    c == '\\' || c == '"' || c == '\n'
  }

  function EscapeChar(c: char): string {
    if c == '\\' || c == '"' then ['\\', c]
    else if c == '\n' then "\\n"
    else [c]
  }

  /** The escaped value, followed by `tail`. */
  function EscapeThen(v: string, tail: string): string {
    if v == "" then tail else EscapeChar(v[0]) + EscapeThen(v[1..], tail)
  }

  /** name="value", followed by `tail`. */
  function LabelThen(name: string, value: string, tail: string): string {
    name + ("=\"" + EscapeThen(value, "\"" + tail))
  }

  /** The labels of a key from some point on, up to `end`: a comma before every label but the
      first, and no label for an empty value. */
  function Tail(names: seq<string>, vals: seq<string>, first: bool, end: string): string
    requires |names| == |vals|
  {
    if names == [] then end
    else if vals[0] == "" then Tail(names[1..], vals[1..], first, end)
    else
      var text := LabelThen(names[0], vals[0], Tail(names[1..], vals[1..], false, end));
      if first then text else "," + text
  }

  /** renderGatewayKey, renderPluginKey and renderUpstreamKey, for their list of label names. */
  function Render(names: seq<string>, vals: seq<string>): string
    requires |names| == |vals|
  {
    "{" + Tail(names, vals, true, "}")
  }

  /** Label names: not empty and without the characters of the syntax. */
  predicate GoodName(n: string) {
    n != "" && forall i :: 0 <= i < |n| ==> n[i] !in {'=', ',', '"', '}', '{'}
  }

  predicate GoodNames(names: seq<string>) {
    && (forall i :: 0 <= i < |names| ==> GoodName(names[i]))
    && (forall i, j :: 0 <= i < j < |names| ==> names[i] != names[j])
  }

  /** The text format read backwards: a backslash before a backslash or a quote stands for that
      character, before an n for a newline. */
  function Unescape(s: string): string {
    if s == "" then ""
    else if s[0] == '\\' && |s| > 1 then
      [if s[1] == 'n' then '\n' else s[1]] + Unescape(s[2..])
    else [s[0]] + Unescape(s[1..])
  }

  /** An escaped value, read backwards, is the value. */
  lemma {:induction false} EscapeRoundTrip(v: string)
    ensures Unescape(EscapeThen(v, "")) == v
  {
    if v != "" {
      EscapeRoundTrip(v[1..]);
      var rest := EscapeThen(v[1..], "");
      var e := EscapeChar(v[0]);
      assert (e + rest)[|e|..] == rest;
      assert v == [v[0]] + v[1..];
    }
  }

  // ---------------------------------------------------------------- the builder

  lemma {:induction false} Assoc(a: string, b: string, c: string)
    ensures a + b + c == a + (b + c)
  {
  }

  /** The loop of appendLabelValue. */
  method AppendLabelValue(b: string, value: string, ghost tail: string) returns (r: string)
    ensures r + tail == b + EscapeThen(value, tail)
  {
    r := b;
    for i := 0 to |value|
      invariant r + EscapeThen(value[i..], tail) == b + EscapeThen(value, tail)
    {
      var c := value[i];
      assert value[i..][1..] == value[i + 1..];
      Assoc(r, EscapeChar(c), EscapeThen(value[i + 1..], tail));
      if c == '\\' || c == '"' {
        r := r + ['\\', c];
      } else if c == '\n' {
        r := r + "\\n";
      } else {
        r := r + [c];
      }
    }
  }

  /** appendLabel; whatever follows, the builder then holds the label in front of it. */
  method AppendLabel(b: string, first: bool, name: string, value: string, ghost tail: string)
    returns (r: string, still: bool)
    ensures value == "" ==> r == b && still == first
    ensures value != "" ==> !still
    ensures value != "" ==>
              r + tail == b + if first then LabelThen(name, value, tail) else "," + LabelThen(name, value, tail)
  {
    if value == "" { return b, first; }
    var sep := if first then "" else ",";
    var head := b + sep + name + "=\"";
    var body := AppendLabelValue(head, value, "\"" + tail);
    r := body + "\"";
    still := false;
    Assoc(body, "\"", tail);
    var e := EscapeThen(value, "\"" + tail);
    Assoc(b + sep + name, "=\"", e);
    Assoc(b + sep, name, "=\"" + e);
    Assoc(b, sep, LabelThen(name, value, tail));
    assert "" + LabelThen(name, value, tail) == LabelThen(name, value, tail);
  }

  /** A render function: the labels appended one after the other. */
  method RenderKey(names: seq<string>, vals: seq<string>) returns (key: string)
    requires |names| == |vals|
    ensures key == Render(names, vals)
  {
    var b, first := "{", true;
    for i := 0 to |names|
      invariant b + Tail(names[i..], vals[i..], first, "}") == Render(names, vals)
    {
      assert names[i..][1..] == names[i + 1..] && vals[i..][1..] == vals[i + 1..];
      ghost var more := Tail(names[i + 1..], vals[i + 1..], false, "}");
      b, first := AppendLabel(b, first, names[i], vals[i], more);
    }
    key := b + "}";
  }

  // ---------------------------------------------------------------- rendering is injective

  lemma {:induction false} Drop(a: string, b: string)
    ensures (a + b)[|a|..] == b && (a + b)[..|a|] == a
  {
  }

  lemma {:induction false} SameFront(a: string, x: string, b: string, y: string)
    requires a + x == b + y && |a| == |b|
    ensures a == b && x == y
  {
    Drop(a, x);
    Drop(b, y);
  }

  lemma {:induction false} SameCodeWord(c: char, x: string, d: char, y: string)
    requires EscapeChar(c) + x == EscapeChar(d) + y
    ensures c == d && x == y
  {
    var s, t := EscapeChar(c) + x, EscapeChar(d) + y;
    assert s[0] == EscapeChar(c)[0] && t[0] == EscapeChar(d)[0];
    SameFront(EscapeChar(c), x, EscapeChar(d), y);
    assert Special(c) ==> EscapeChar(c)[1] == EscapeChar(d)[1];
  }

  lemma {:induction false} NotAQuote(v: string, tail: string, x: string)
    requires v != ""
    ensures EscapeThen(v, tail) != "\"" + x
  {
    assert EscapeThen(v, tail)[0] == EscapeChar(v[0])[0];
    assert ("\"" + x)[0] == '"';
  }

  /** Escaping is a prefix code that never starts with a quote: the closing quote is found. */
  lemma {:induction false} EscapeCancels(a: string, x: string, b: string, y: string)
    requires EscapeThen(a, "\"" + x) == EscapeThen(b, "\"" + y)
    ensures a == b && x == y
  {
    if a == "" || b == "" {
      if a != "" { NotAQuote(a, "\"" + x, y); }
      if b != "" { NotAQuote(b, "\"" + y, x); }
      SameFront("\"", x, "\"", y);
    } else {
      SameCodeWord(a[0], EscapeThen(a[1..], "\"" + x), b[0], EscapeThen(b[1..], "\"" + y));
      EscapeCancels(a[1..], x, b[1..], y);
      assert a == [a[0]] + a[1..] && b == [b[0]] + b[1..];
    }
  }

  lemma {:induction false} EqualsAt(n: string, x: string, i: nat)
    requires GoodName(n) && i <= |n|
    ensures (n + ("=\"" + x))[i] == '=' <==> i == |n|
  {
  }

  lemma {:induction false} NameCancels(n: string, x: string, m: string, y: string)
    requires GoodName(n) && GoodName(m) && n + ("=\"" + x) == m + ("=\"" + y)
    ensures n == m && x == y
  {
    var k := if |n| <= |m| then |n| else |m|;
    EqualsAt(n, x, k);
    EqualsAt(m, y, k);
    SameFront(n, "=\"" + x, m, "=\"" + y);
    SameFront("=\"", x, "=\"", y);
  }

  lemma {:induction false} LabelCancels(n: string, v: string, x: string, m: string, w: string, y: string)
    requires GoodName(n) && GoodName(m) && LabelThen(n, v, x) == LabelThen(m, w, y)
    ensures n == m && v == w && x == y
  {
    NameCancels(n, EscapeThen(v, "\"" + x), m, EscapeThen(w, "\"" + y));
    EscapeCancels(v, x, w, y);
  }

  /** The text does not start with the label of another name. */
  lemma {:induction false} StartsElsewhere(names: seq<string>, vals: seq<string>, first: bool, n: string, v: string,
                                           x: string)
    requires |names| == |vals| && GoodName(n)
    requires forall i :: 0 <= i < |names| ==> GoodName(names[i]) && names[i] != n
    ensures Tail(names, vals, first, "}") != if first then LabelThen(n, v, x) else "," + LabelThen(n, v, x)
  {
    if names == [] {
      assert LabelThen(n, v, x)[0] == n[0];
    } else if vals[0] == "" {
      StartsElsewhere(names[1..], vals[1..], first, n, v, x);
    } else {
      var tail := Tail(names[1..], vals[1..], false, "}");
      OtherLabel(names[0], vals[0], tail, n, v, x);
    }
  }

  lemma {:induction false} OtherLabel(n: string, v: string, x: string, m: string, w: string, y: string)
    requires GoodName(n) && GoodName(m) && n != m
    ensures LabelThen(n, v, x) != LabelThen(m, w, y)
    ensures "," + LabelThen(n, v, x) != "," + LabelThen(m, w, y)
  {
    if LabelThen(n, v, x) == LabelThen(m, w, y) { LabelCancels(n, v, x, m, w, y); }
    if "," + LabelThen(n, v, x) == "," + LabelThen(m, w, y) {
      SameFront(",", LabelThen(n, v, x), ",", LabelThen(m, w, y));
    }
  }

  lemma {:induction false} TailInjective(names: seq<string>, a: seq<string>, b: seq<string>, first: bool)
    requires GoodNames(names) && |a| == |names| == |b| && Tail(names, a, first, "}") == Tail(names, b, first, "}")
    ensures a == b
  {
    if names != [] {
      var n, names' := names[0], names[1..];
      var x, y := Tail(names', a[1..], false, "}"), Tail(names', b[1..], false, "}");
      if a[0] == "" && b[0] == "" {
        TailInjective(names', a[1..], b[1..], first);
      } else if a[0] == "" {
        StartsElsewhere(names', a[1..], first, n, b[0], y);
      } else if b[0] == "" {
        StartsElsewhere(names', b[1..], first, n, a[0], x);
      } else {
        if !first { SameFront(",", LabelThen(n, a[0], x), ",", LabelThen(n, b[0], y)); }
        LabelCancels(n, a[0], x, n, b[0], y);
        TailInjective(names', a[1..], b[1..], false);
      }
      assert a == [a[0]] + a[1..] && b == [b[0]] + b[1..];
    }
  }

  /** Different label values are never rendered to the same key, whatever bytes they contain. */
  lemma {:induction false} RenderInjective(names: seq<string>, a: seq<string>, b: seq<string>)
    requires GoodNames(names) && |a| == |names| == |b| && Render(names, a) == Render(names, b)
    ensures a == b
  {
    SameFront("{", Tail(names, a, true, "}"), "{", Tail(names, b, true, "}"));
    TailInjective(names, a, b, true);
  }
}
