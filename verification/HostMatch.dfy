/**
 Host and method matching of internal/router/router.go: what the patterns mean.
 */
module HostMatch {
  import opened Text
  import opened RouteTable

  /** "*.x" stands for anything, a dot and x, in any case. */
  ghost predicate LeadingStar(h: string, host: string) {
    exists x: string, front: string, t: string ::
      h == "*." + x && x != "" && host == front + "." + t && EqualFold(t, x)
  }

  /** "x.*" stands for x in any case, a dot and anything. */
  ghost predicate TrailingStar(h: string, host: string) {
    exists x: string, t: string, rest: string ::
      h == x + ".*" && x != "" && host == t + "." + rest && EqualFold(t, x)
  }

  lemma {:induction false} LeadingStarIff(h: string, host: string)
    ensures LeadingStar(h, host) <==>
            HasPrefix(h, "*.") &&
            var suffix := h[2..];
            suffix != "" && |host| > |suffix| && host[|host| - |suffix| - 1] == '.' &&
            EqualFold(host[|host| - |suffix|..], suffix)
  {
    if x: string, front: string, t: string :| h == "*." + x && x != "" && host == front + "." + t && EqualFold(t, x) {
      assert h[..2] == "*." && h[2..] == x;
      assert |host| == |front| + 1 + |x| && host[|front|] == '.' && host[|front| + 1..] == t;
    }
    if HasPrefix(h, "*.") {
      var x := h[2..];
      assert h == "*." + x;
      if x != "" && |host| > |x| && host[|host| - |x| - 1] == '.' && EqualFold(host[|host| - |x|..], x) {
        var front, t := host[..|host| - |x| - 1], host[|host| - |x|..];
        assert host == front + "." + t;
      }
    }
  }

  lemma {:induction false} TrailingStarIff(h: string, host: string)
    ensures TrailingStar(h, host) <==>
            HasSuffix(h, ".*") &&
            var prefix := h[..|h| - 2];
            prefix != "" && |host| > |prefix| && host[|prefix|] == '.' && EqualFold(host[..|prefix|], prefix)
  {
    if x: string, t: string, rest: string :| h == x + ".*" && x != "" && host == t + "." + rest && EqualFold(t, x) {
      assert h[|h| - 2..] == ".*" && h[..|h| - 2] == x;
      assert host[|t|] == '.' && host[..|t|] == t;
    }
    if HasSuffix(h, ".*") {
      var x := h[..|h| - 2];
      assert h == x + ".*";
      if x != "" && |host| > |x| && host[|x|] == '.' && EqualFold(host[..|x|], x) {
        var t, rest := host[..|x|], host[|x| + 1..];
        assert host == t + "." + rest;
      }
    }
  }

  /** The host itself in any case, or a leading or trailing wildcard for it. */
  ghost predicate HostFits(h: string, host: string) {
    EqualFold(h, host) || LeadingStar(h, host) || TrailingStar(h, host)
  }

  lemma {:induction false} HostMeaning(h: string, host: string)
    ensures HostPatternMatches(h, host) <==> HostFits(h, host)
  {
    LeadingStarIff(h, host);
    TrailingStarIff(h, host);
  }

  /** matchHost. */
  method MatchHost(hosts: seq<string>, host: string) returns (ok: bool)
    ensures ok <==> hosts == [] || exists k :: 0 <= k < |hosts| && HostFits(hosts[k], host)
  {
    if |hosts| == 0 { return true; }
    for k := 0 to |hosts|
      invariant forall j :: 0 <= j < k ==> !HostPatternMatches(hosts[j], host)
    {
      if HostPatternMatches(hosts[k], host) {
        HostMeaning(hosts[k], host);
        return true;
      }
    }
    forall j | 0 <= j < |hosts|
      ensures !HostFits(hosts[j], host)
    {
      HostMeaning(hosts[j], host);
    }
    return false;
  }

  /** matchMethod: no listed method means any; names are compared in any case. */
  method MatchMethod(methods: seq<string>, verb: string) returns (ok: bool)
    ensures ok <==> methods == [] || exists k :: 0 <= k < |methods| && Upper(methods[k]) == Upper(verb)
  {
    if |methods| == 0 { return true; }
    for k := 0 to |methods|
      invariant forall j :: 0 <= j < k ==> Upper(methods[j]) != Upper(verb)
    {
      FoldIsUpper(methods[k], verb);
      if EqualFold(methods[k], verb) { return true; }
    }
    return false;
  }
}
