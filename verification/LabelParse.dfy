/**
 parseLabelKey of internal/observability/observability.go: it splits at every comma, cuts at the
 first equals sign and trims quotes, and knows nothing of escapes.
 */
module LabelParse {
  import opened Labels

  datatype Found = Missing | Value(value: string)

  function Lookup(m: map<string, string>, n: string): Found {
    if n in m then Value(m[n]) else Missing
  }

  // ---------------------------------------------------------------- the parser

  /** strings.Split(s, ","). */
  function Split(s: string): (r: seq<string>)
    ensures r != []
  {
    if s == "" then [""]
    else if s[0] == ',' then [""] + Split(s[1..])
    else [[s[0]] + Split(s[1..])[0]] + Split(s[1..])[1..]
  }

  datatype Cutting = Uncut | Pair(name: string, value: string)

  /** strings.Cut(part, "="). */
  function Cut(part: string): Cutting {
    if part == "" then Uncut
    else if part[0] == '=' then Pair("", part[1..])
    else
      var r := Cut(part[1..]);
      if r.Uncut? then Uncut else Pair([part[0]] + r.name, r.value)
  }

  function TrimQuotesLeft(s: string): string {
    if s != "" && s[0] == '"' then TrimQuotesLeft(s[1..]) else s
  }

  function TrimQuotesRight(s: string): string {
    if s != "" && s[|s| - 1] == '"' then TrimQuotesRight(s[..|s| - 1]) else s
  }

  function TrimQuotes(s: string): string {
    TrimQuotesRight(TrimQuotesLeft(s))
  }

  /** The parts put together again, with a comma in between. */
  function Join(parts: seq<string>): string
    requires parts != []
  {
    if |parts| == 1 then parts[0] else parts[0] + ("," + Join(parts[1..]))
  }

  lemma {:induction false} JoinMore(c: char, parts: seq<string>)
    requires parts != []
    ensures Join([[c] + parts[0]] + parts[1..]) == [c] + Join(parts)
  {
    var all := [[c] + parts[0]] + parts[1..];
    assert all[1..] == parts[1..];
    if |parts| > 1 { Assoc([c], parts[0], "," + Join(parts[1..])); }
  }

  lemma {:induction false} JoinEmpty(parts: seq<string>)
    requires parts != []
    ensures Join([""] + parts) == "," + Join(parts)
  {
    assert ([""] + parts)[1..] == parts;
    assert "" + ("," + Join(parts)) == "," + Join(parts);
  }

  /** Splitting loses nothing, and leaves no comma in a part. */
  lemma {:induction false} SplitMeaning(s: string)
    ensures Join(Split(s)) == s
    ensures forall i :: 0 <= i < |Split(s)| ==> ',' !in Split(s)[i]
  {
    if s != "" {
      SplitMeaning(s[1..]);
      assert s == [s[0]] + s[1..];
      if s[0] == ',' { JoinEmpty(Split(s[1..])); } else { JoinMore(s[0], Split(s[1..])); }
    }
  }

  /** A part is cut at its first equals sign, if it has one. */
  lemma {:induction false} CutMeaning(part: string, name: string, value: string)
    ensures Cut(part) == Pair(name, value) <==> part == name + ("=" + value) && '=' !in name
    ensures Cut(part).Uncut? <==> '=' !in part
  {
    if part != "" {
      assert part == [part[0]] + part[1..];
      if part[0] == '=' {
        assert "" + ("=" + part[1..]) == part;
        if part == name + ("=" + value) && '=' !in name { assert name == "" && part[1..] == value; }
      } else {
        if name != "" {
          CutMeaning(part[1..], name[1..], value);
          assert name == [name[0]] + name[1..];
          if part == name + ("=" + value) { assert part[1..] == name[1..] + ("=" + value) && part[0] == name[0]; }
        } else {
          CutMeaning(part[1..], "", value);
          assert name + ("=" + value) == "=" + value;
        }
      }
    }
  }

  predicate Quotes(s: string) {
    forall i :: 0 <= i < |s| ==> s[i] == '"'
  }

  /** Trimming takes quotes from both ends, and all of them. */
  lemma {:induction false} TrimQuotesMeaning(s: string) returns (l: string, r: string)
    ensures s == l + TrimQuotes(s) + r && Quotes(l) && Quotes(r)
    ensures var t := TrimQuotes(s); t != "" ==> t[0] != '"' && t[|t| - 1] != '"'
  {
    l := QuotesLeft(s);
    r := QuotesRight(TrimQuotesLeft(s));
    assert s == l + TrimQuotes(s) + r;
  }

  lemma {:induction false} QuotesLeft(s: string) returns (l: string)
    ensures s == l + TrimQuotesLeft(s) && Quotes(l)
    ensures TrimQuotesLeft(s) != "" ==> TrimQuotesLeft(s)[0] != '"'
  {
    if s != "" && s[0] == '"' {
      var rest := QuotesLeft(s[1..]);
      l := [s[0]] + rest;
    } else {
      l := "";
    }
  }

  lemma {:induction false} QuotesRight(s: string) returns (r: string)
    ensures s == TrimQuotesRight(s) + r && Quotes(r)
    ensures var t := TrimQuotesRight(s); t != "" ==> t[0] == s[0] && t[|t| - 1] != '"'
  {
    if s != "" && s[|s| - 1] == '"' {
      var rest := QuotesRight(s[..|s| - 1]);
      r := rest + [s[|s| - 1]];
    } else {
      r := "";
    }
  }

  function TakePart(acc: map<string, string>, part: string): map<string, string> {
    var c := Cut(part);
    if c.Uncut? then acc else acc[c.name := TrimQuotes(c.value)]
  }

  function TakeParts(acc: map<string, string>, parts: seq<string>): map<string, string>
    decreases |parts|
  {
    if parts == [] then acc else TakeParts(TakePart(acc, parts[0]), parts[1..])
  }

  function TrimBraces(key: string): string {
    var k := if key != "" && key[0] == '{' then key[1..] else key;
    if k != "" && k[|k| - 1] == '}' then k[..|k| - 1] else k
  }

  function Parse(key: string): map<string, string> {
    if TrimBraces(key) == "" then map[] else TakeParts(map[], Split(TrimBraces(key)))
  }

  /** parseLabelKey, with its loop. */
  method ParseLabelKey(key: string) returns (result: map<string, string>)
    ensures result == Parse(key)
  {
    result := map[];
    if key == "" { return; }
    var trimmed := TrimBraces(key);
    if trimmed == "" { return; }
    var parts := Split(trimmed);
    for i := 0 to |parts|
      invariant TakeParts(result, parts[i..]) == TakeParts(map[], parts)
    {
      assert parts[i..][1..] == parts[i + 1..];
      var c := Cut(parts[i]);
      if c.Pair? { result := result[c.name := TrimQuotes(c.value)]; }
    }
  }

  // ---------------------------------------------------------------- single labels

  predicate NoComma(s: string) {
    forall i :: 0 <= i < |s| ==> s[i] != ','
  }

  /** A value without commas, quotes, backslashes and newlines. */
  predicate Clean(v: string) {
    forall i :: 0 <= i < |v| ==> v[i] != ',' && !Special(v[i])
  }

  /** What the parser makes of a rendered value that has no comma. */
  function Got(v: string): string {
    TrimQuotes("\"" + EscapeThen(v, "\""))
  }

  lemma {:induction false} EscapeFront(v: string, tail: string)
    ensures EscapeThen(v, tail) == EscapeThen(v, "") + tail
  {
    if v != "" {
      EscapeFront(v[1..], tail);
      Assoc(EscapeChar(v[0]), EscapeThen(v[1..], ""), tail);
    }
  }

  lemma {:induction false} EscapeSnoc(v: string, c: char)
    ensures EscapeThen(v + [c], "") == EscapeThen(v, "") + EscapeChar(c)
  {
    if v == "" {
      assert "" + [c] == [c] && EscapeThen([c][1..], "") == "";
      assert EscapeChar(c) + "" == EscapeChar(c) && "" + EscapeChar(c) == EscapeChar(c);
    } else {
      assert (v + [c])[1..] == v[1..] + [c];
      EscapeSnoc(v[1..], c);
      Assoc(EscapeChar(v[0]), EscapeThen(v[1..], ""), EscapeChar(c));
    }
  }

  lemma {:induction false} EscapeLength(v: string)
    ensures |EscapeThen(v, "")| >= |v|
    ensures (exists i :: 0 <= i < |v| && Special(v[i])) ==> |EscapeThen(v, "")| > |v|
    ensures (forall i :: 0 <= i < |v| ==> !Special(v[i])) ==> EscapeThen(v, "") == v
  {
    if v != "" {
      EscapeLength(v[1..]);
      assert v == [v[0]] + v[1..];
      if exists i :: 0 <= i < |v| && Special(v[i]) {
        var i :| 0 <= i < |v| && Special(v[i]);
        if i > 0 { assert Special(v[1..][i - 1]); }
      }
    }
  }

  lemma {:induction false} TrimOpening(q: string)
    requires q != "" && q[0] != '"'
    ensures TrimQuotesLeft("\"" + q) == q
  {
    assert ("\"" + q)[1..] == q;
  }

  lemma {:induction false} TrimClosing(x: string, c: char)
    ensures TrimQuotesRight(x + [c]) == if c == '"' then TrimQuotesRight(x) else x + [c]
  {
    assert (x + [c])[..|x|] == x;
  }

  /** The last character of a code word, and what is before it. */
  function LastOf(c: char): char {
    if c == '\n' then 'n' else c
  }

  function BeforeLast(pre: string, c: char): string {
    if Special(c) then pre + ['\\'] else pre
  }

  lemma {:induction false} CodeWordByLast(pre: string, c: char)
    ensures pre + EscapeChar(c) == BeforeLast(pre, c) + [LastOf(c)]
  {
  }

  lemma {:induction false} TrimCodeWord(pre: string, c: char)
    ensures TrimQuotesRight(pre + EscapeChar(c)) == if c == '"' then pre + ['\\'] else pre + EscapeChar(c)
  {
    CodeWordByLast(pre, c);
    TrimClosing(BeforeLast(pre, c), LastOf(c));
    TrimClosing(pre, '\\');
  }

  lemma {:induction false} EscapeStart(v: string)
    requires v != ""
    ensures EscapeThen(v, "") != "" && EscapeThen(v, "")[0] != '"'
  {
  }

  lemma {:induction false} TrimEscaped(e: string)
    requires e != "" && e[0] != '"'
    ensures TrimQuotes("\"" + (e + "\"")) == TrimQuotesRight(e)
  {
    TrimOpening(e + "\"");
    TrimClosing(e, '"');
  }

  /** The parser strips the closing quote, and one more if the value ends with a quote itself. */
  lemma {:induction false} GotIs(u: string, c: char)
    ensures Got(u + [c]) == if c == '"' then EscapeThen(u, "") + ['\\'] else EscapeThen(u + [c], "")
  {
    var v := u + [c];
    EscapeFront(v, "\"");
    EscapeStart(v);
    TrimEscaped(EscapeThen(v, ""));
    EscapeSnoc(u, c);
    TrimCodeWord(EscapeThen(u, ""), c);
  }

  lemma {:induction false} GotIffPlain(v: string)
    ensures Got(v) == v <==> forall i :: 0 <= i < |v| ==> !Special(v[i])
  {
    if v == "" {
      GotNothing();
    } else {
      var n := |v| - 1;
      assert v == v[..n] + [v[n]];
      GotIs(v[..n], v[n]);
      EscapeLength(v);
      if v[n] == '"' {
        assert Special(v[n]);
        assert Got(v)[|Got(v)| - 1] == '\\';
      }
    }
  }

  lemma {:induction false} GotNothing()
    ensures Got("") == ""
  {
    assert ("\"" + "\"")[1..] == "\"" && "\""[1..] == "";
    assert TrimQuotesLeft("\"" + "\"") == TrimQuotesLeft("\"") == TrimQuotesLeft("") == "";
  }

  // ---------------------------------------------------------------- a rendered key, without commas in it

  function Parts(names: seq<string>, vals: seq<string>): seq<string>
    requires |names| == |vals|
  {
    if names == [] then []
    else (if vals[0] == "" then [] else [LabelThen(names[0], vals[0], "")]) + Parts(names[1..], vals[1..])
  }

  lemma {:induction false} LabelFront(n: string, v: string, tail: string)
    ensures LabelThen(n, v, tail) == LabelThen(n, v, "") + tail
  {
    EscapeFront(v, "\"" + tail);
    EscapeFront(v, "\"" + "");
    var e := EscapeThen(v, "");
    assert "\"" + "" == "\"";
    Assoc(e, "\"", tail);
    Assoc("=\"", e + "\"", tail);
    Assoc(n, "=\"" + (e + "\""), tail);
  }

  lemma {:induction false} TailEnd(names: seq<string>, vals: seq<string>, first: bool, end: string)
    requires |names| == |vals|
    ensures Tail(names, vals, first, end) == Tail(names, vals, first, "") + end
  {
    if names == [] {
    } else if vals[0] == "" {
      TailEnd(names[1..], vals[1..], first, end);
    } else {
      var x, y := Tail(names[1..], vals[1..], false, ""), Tail(names[1..], vals[1..], false, end);
      TailEnd(names[1..], vals[1..], false, end);
      LabelFront(names[0], vals[0], x);
      LabelFront(names[0], vals[0], y);
      var p := LabelThen(names[0], vals[0], "");
      Assoc(p, x, end);
      Assoc(",", p + x, end);
    }
  }

  lemma {:induction false} TailSecond(names: seq<string>, vals: seq<string>)
    requires |names| == |vals|
    ensures Tail(names, vals, false, "") == if Parts(names, vals) == [] then "" else "," + Tail(names, vals, true, "")
    ensures Parts(names, vals) == [] <==> Tail(names, vals, true, "") == ""
  {
    if names != [] && vals[0] == "" {
      TailSecond(names[1..], vals[1..]);
    }
  }

  lemma {:induction false} SplitFirst(p: string, q: string)
    requires NoComma(p)
    ensures Split(p) == [p]
    ensures Split(p + ("," + q)) == [p] + Split(q)
  {
    if p == "" {
      assert "" + ("," + q) == "," + q && ("," + q)[1..] == q;
    } else {
      SplitFirst(p[1..], q);
      assert (p + ("," + q))[1..] == p[1..] + ("," + q);
      assert p == [p[0]] + p[1..];
    }
  }

  lemma {:induction false} EscapeNoComma(v: string)
    requires NoComma(v)
    ensures NoComma(EscapeThen(v, "\""))
  {
    if v != "" { EscapeNoComma(v[1..]); }
  }

  lemma {:induction false} LabelNoComma(n: string, v: string)
    requires GoodName(n) && NoComma(v)
    ensures NoComma(LabelThen(n, v, ""))
  {
    EscapeNoComma(v);
    assert "\"" + "" == "\"";
  }

  lemma {:induction false} SplitTail(names: seq<string>, vals: seq<string>)
    requires |names| == |vals| && Parts(names, vals) != []
    requires forall i :: 0 <= i < |names| ==> GoodName(names[i]) && NoComma(vals[i])
    ensures Split(Tail(names, vals, true, "")) == Parts(names, vals)
  {
    var names', vals' := names[1..], vals[1..];
    if vals[0] == "" {
      SplitTail(names', vals');
    } else {
      var p := LabelThen(names[0], vals[0], "");
      LabelNoComma(names[0], vals[0]);
      TailSecond(names', vals');
      LabelFront(names[0], vals[0], Tail(names', vals', false, ""));
      SplitFirst(p, Tail(names', vals', true, ""));
      if Parts(names', vals') == [] {
        assert p + "" == p;
      } else {
        SplitTail(names', vals');
      }
    }
  }

  lemma {:induction false} CutAt(n: string, x: string)
    requires forall i :: 0 <= i < |n| ==> n[i] != '='
    ensures Cut(n + ("=" + x)) == Pair(n, x)
  {
    if n == "" {
      assert "" + ("=" + x) == "=" + x && ("=" + x)[1..] == x;
    } else {
      CutAt(n[1..], x);
      assert (n + ("=" + x))[1..] == n[1..] + ("=" + x);
      assert n == [n[0]] + n[1..];
    }
  }

  lemma {:induction false} TakeLabel(acc: map<string, string>, n: string, v: string)
    requires GoodName(n)
    ensures TakePart(acc, LabelThen(n, v, "")) == acc[n := Got(v)]
  {
    var x := "\"" + EscapeThen(v, "\"");
    assert "\"" + "" == "\"";
    Assoc("=", "\"", EscapeThen(v, "\""));
    assert "=" + "\"" == "=\"";
    CutAt(n, x);
  }

  /** The label that a name has, if its value is not empty. */
  function LabelOf(names: seq<string>, vals: seq<string>, n: string): Found
    requires |names| == |vals|
  {
    if names == [] then Missing
    else if names[0] == n && vals[0] != "" then Value(vals[0])
    else LabelOf(names[1..], vals[1..], n)
  }

  lemma {:induction false} NoOtherLabel(names: seq<string>, vals: seq<string>, n: string)
    requires |names| == |vals| && forall i :: 0 <= i < |names| ==> names[i] != n
    ensures LabelOf(names, vals, n) == Missing
  {
    if names != [] { NoOtherLabel(names[1..], vals[1..], n); }
  }

  lemma {:induction false} TakeAll(acc: map<string, string>, names: seq<string>, vals: seq<string>, n: string)
    requires |names| == |vals| && GoodNames(names)
    ensures Lookup(TakeParts(acc, Parts(names, vals)), n) ==
            if LabelOf(names, vals, n) == Missing then Lookup(acc, n) else Value(Got(LabelOf(names, vals, n).value))
    decreases |names|
  {
    if names != [] {
      var names', vals' := names[1..], vals[1..];
      if vals[0] == "" {
        assert [] + Parts(names', vals') == Parts(names', vals');
        TakeAll(acc, names', vals', n);
      } else {
        var p := LabelThen(names[0], vals[0], "");
        TakeLabel(acc, names[0], vals[0]);
        assert ([p] + Parts(names', vals'))[1..] == Parts(names', vals');
        TakeAll(acc[names[0] := Got(vals[0])], names', vals', n);
        if names[0] == n { NoOtherLabel(names', vals', n); }
      }
    }
  }

  lemma {:induction false} TrimRendered(names: seq<string>, vals: seq<string>)
    requires |names| == |vals|
    ensures TrimBraces(Render(names, vals)) == Tail(names, vals, true, "")
  {
    var t := Tail(names, vals, true, "");
    TailEnd(names, vals, true, "}");
    assert Render(names, vals)[1..] == t + "}";
    assert (t + "}")[..|t|] == t;
  }

  /** Without commas in the values, every label is found under its name, unescaped or not. */
  lemma {:induction false} ParseWithoutCommas(names: seq<string>, vals: seq<string>, n: string)
    requires |names| == |vals| && GoodNames(names) && forall i :: 0 <= i < |vals| ==> NoComma(vals[i])
    ensures Lookup(Parse(Render(names, vals)), n) ==
            if LabelOf(names, vals, n) == Missing then Missing else Value(Got(LabelOf(names, vals, n).value))
  {
    TrimRendered(names, vals);
    TailSecond(names, vals);
    TakeAll(map[], names, vals, n);
    if Parts(names, vals) != [] { SplitTail(names, vals); }
  }

  // ---------------------------------------------------------------- when parsing recovers the labels

  lemma {:induction false} SplitNoComma(s: string, k: nat)
    requires k < |Split(s)|
    ensures NoComma(Split(s)[k])
  {
    if s != "" {
      if s[0] == ',' {
        if k > 0 { SplitNoComma(s[1..], k - 1); }
      } else {
        SplitNoComma(s[1..], k);
      }
    }
  }

  predicate ValuesNoComma(m: map<string, string>) {
    forall n :: n in m ==> NoComma(m[n])
  }

  lemma {:induction false} CutNoComma(part: string)
    requires NoComma(part) && Cut(part).Pair?
    ensures NoComma(Cut(part).value)
  {
    if part[0] != '=' { CutNoComma(part[1..]); }
  }

  lemma {:induction false} TrimLeftNoComma(s: string)
    requires NoComma(s)
    ensures NoComma(TrimQuotesLeft(s))
  {
    if s != "" && s[0] == '"' { TrimLeftNoComma(s[1..]); }
  }

  lemma {:induction false} TrimRightNoComma(s: string)
    requires NoComma(s)
    ensures NoComma(TrimQuotesRight(s))
  {
    if s != "" && s[|s| - 1] == '"' { TrimRightNoComma(s[..|s| - 1]); }
  }

  lemma {:induction false} TakeNoComma(acc: map<string, string>, parts: seq<string>)
    requires ValuesNoComma(acc) && forall k :: 0 <= k < |parts| ==> NoComma(parts[k])
    ensures ValuesNoComma(TakeParts(acc, parts))
    decreases |parts|
  {
    if parts != [] {
      var c := Cut(parts[0]);
      if c.Pair? {
        CutNoComma(parts[0]);
        TrimLeftNoComma(c.value);
        TrimRightNoComma(TrimQuotesLeft(c.value));
      }
      TakeNoComma(TakePart(acc, parts[0]), parts[1..]);
    }
  }

  lemma {:induction false} ParsedNoComma(key: string)
    ensures ValuesNoComma(Parse(key))
  {
    var parts := Split(TrimBraces(key));
    forall k | 0 <= k < |parts| ensures NoComma(parts[k]) { SplitNoComma(TrimBraces(key), k); }
    TakeNoComma(map[], parts);
  }

  lemma {:induction false} LabelOfName(names: seq<string>, vals: seq<string>, i: nat)
    requires |names| == |vals| && GoodNames(names) && i < |names| && vals[i] != ""
    ensures LabelOf(names, vals, names[i]) == Value(vals[i])
  {
    if i > 0 { LabelOfName(names[1..], vals[1..], i - 1); }
  }

  lemma {:induction false} LabelIsAValue(names: seq<string>, vals: seq<string>, n: string)
    requires |names| == |vals| && LabelOf(names, vals, n).Value?
    ensures LabelOf(names, vals, n).value in vals
  {
    if !(names[0] == n && vals[0] != "") {
      LabelIsAValue(names[1..], vals[1..], n);
    }
  }

  /** Parsing a rendered key gives exactly the labels with a non-empty value. */
  ghost predicate Recovers(names: seq<string>, vals: seq<string>)
    requires |names| == |vals|
  {
    forall n :: Lookup(Parse(Render(names, vals)), n) == LabelOf(names, vals, n)
  }

  lemma {:induction false} RecoversOnlyClean(names: seq<string>, vals: seq<string>, i: nat)
    requires |names| == |vals| && GoodNames(names) && Recovers(names, vals) && i < |vals|
    ensures NoComma(vals[i])
  {
    if vals[i] != "" {
      LabelOfName(names, vals, i);
      ParsedNoComma(Render(names, vals));
      assert Lookup(Parse(Render(names, vals)), names[i]) == Value(vals[i]);
    }
  }

  /** The parser recovers the labels if and only if no value contains a comma, a quote, a
      backslash or a newline. */
  lemma {:induction false} ParseRecoversIff(names: seq<string>, vals: seq<string>)
    requires |names| == |vals| && GoodNames(names)
    ensures Recovers(names, vals) <==> forall i :: 0 <= i < |vals| ==> Clean(vals[i])
  {
    if Recovers(names, vals) {
      forall i | 0 <= i < |vals| ensures NoComma(vals[i]) { RecoversOnlyClean(names, vals, i); }
      forall i | 0 <= i < |vals| ensures Clean(vals[i]) {
        if vals[i] != "" {
          LabelOfName(names, vals, i);
          ParseWithoutCommas(names, vals, names[i]);
          GotIffPlain(vals[i]);
        }
      }
    }
    if forall i :: 0 <= i < |vals| ==> Clean(vals[i]) {
      forall n ensures Lookup(Parse(Render(names, vals)), n) == LabelOf(names, vals, n) {
        ParseWithoutCommas(names, vals, n);
        if LabelOf(names, vals, n).Value? {
          LabelIsAValue(names, vals, n);
          GotIffPlain(LabelOf(names, vals, n).value);
        }
      }
    }
  }
}
