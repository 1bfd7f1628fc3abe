/**
 The few string operations the gateway uses, on ASCII text.
 */
module Text {

  function UpperChar(c: char): char {
    if 'a' <= c <= 'z' then c - 'a' + 'A' else c
  }

  function Upper(s: string): (r: string)
    ensures |r| == |s|
    ensures forall i :: 0 <= i < |s| ==> r[i] == UpperChar(s[i])
  {
    if s == "" then "" else [UpperChar(s[0])] + Upper(s[1..])
  }

  /** strings.EqualFold on ASCII. */
  predicate EqualFold(a: string, b: string) {
    |a| == |b| && forall i :: 0 <= i < |a| ==> UpperChar(a[i]) == UpperChar(b[i])
  }

  lemma {:induction false} FoldIsUpper(a: string, b: string)
    ensures EqualFold(a, b) <==> Upper(a) == Upper(b)
    ensures EqualFold(a, Upper(b)) <==> Upper(a) == Upper(b)
  {
    if EqualFold(a, b) || EqualFold(a, Upper(b)) {
      forall i | 0 <= i < |a| ensures Upper(a)[i] == Upper(b)[i] {
      }
    }
    if Upper(a) == Upper(b) {
      assert |Upper(a)| == |a| && |Upper(b)| == |b|;
      forall i | 0 <= i < |a| ensures UpperChar(a[i]) == UpperChar(b[i]) {
        assert Upper(a)[i] == Upper(b)[i];
      }
    }
  }

  /** The same character, or the two cases of one letter. */
  predicate SameLetter(c: char, d: char) {
    c == d || ('a' <= c <= 'z' && c as int - 32 == d as int) || ('a' <= d <= 'z' && d as int - 32 == c as int)
  }

  /** Folding compares letter by letter. */
  lemma {:induction false} FoldMeaning(a: string, b: string)
    ensures EqualFold(a, b) <==> |a| == |b| && forall i :: 0 <= i < |a| ==> SameLetter(a[i], b[i])
  {
  }

  /** Upper case has no lower-case letter, and folds to what it came from. */
  lemma {:induction false} UpperMeaning(s: string)
    ensures EqualFold(s, Upper(s)) && forall i :: 0 <= i < |s| ==> !('a' <= Upper(s)[i] <= 'z')
  {
  }

  predicate HasPrefix(s: string, p: string) {
    p <= s
  }

  predicate HasSuffix(s: string, p: string) {
    |p| <= |s| && s[|s| - |p|..] == p
  }

  predicate IsSpace(c: char) {
    c == ' ' || c == '\t' || c == '\n' || c == '\U{0B}' || c == '\U{0C}' || c == '\r'
  }

  function TrimLeft(s: string): string {
    if s != "" && IsSpace(s[0]) then TrimLeft(s[1..]) else s
  }

  function TrimRight(s: string): string {
    if s != "" && IsSpace(s[|s| - 1]) then TrimRight(s[..|s| - 1]) else s
  }

  function TrimSpace(s: string): string {
    TrimRight(TrimLeft(s))
  }
}
