/** Strings as the program handles them: ASCII white space, ASCII case folding,
    suffix tests and colon searches. */
module Text {

  predicate IsSpace(c: char) {
    c == ' ' || c == '\t' || c == '\n' || c == '\r' || c == 11 as char || c == 12 as char
  }

  /** `strings.TrimSpace(s) == ""`. */
  predicate Blank(s: string) {
    forall i :: 0 <= i < |s| ==> IsSpace(s[i])
  }

  /** The first position from k on that holds no white space. */
  function SkipSpace(s: string, k: nat): (r: nat)
    requires k <= |s|
    ensures k <= r <= |s|
    decreases |s| - k
  {
    if k < |s| && IsSpace(s[k]) then SkipSpace(s, k + 1) else k
  }

  /** The end of the last character before k that is no white space. */
  function SkipSpaceBack(s: string, k: nat): (r: nat)
    requires k <= |s|
    ensures r <= k
  {
    if k > 0 && IsSpace(s[k - 1]) then SkipSpaceBack(s, k - 1) else k
  }

  lemma {:induction false} SkipSpaceStops(s: string, k: nat)
    requires k <= |s|
    ensures var r := SkipSpace(s, k); (r < |s| ==> !IsSpace(s[r])) && forall i :: k <= i < r ==> IsSpace(s[i])
    decreases |s| - k
  {
    if k < |s| && IsSpace(s[k]) { SkipSpaceStops(s, k + 1); }
  }

  lemma {:induction false} SkipSpaceBackStops(s: string, k: nat)
    requires k <= |s|
    ensures var r := SkipSpaceBack(s, k); (r > 0 ==> !IsSpace(s[r - 1])) && forall i :: r <= i < k ==> IsSpace(s[i])
  {
    if k > 0 && IsSpace(s[k - 1]) { SkipSpaceBackStops(s, k - 1); }
  }

  function TrimLeft(s: string): string {
    s[SkipSpace(s, 0)..]
  }

  function TrimRight(s: string): string {
    s[..SkipSpaceBack(s, |s|)]
  }

  function Trim(s: string): string {
    TrimRight(TrimLeft(s))
  }

  function LowerChar(c: char): char {
    if 'A' <= c <= 'Z' then (c as int + 32) as char else c
  }

  function Lower(s: string): (t: string)
    ensures |t| == |s|
    ensures forall i :: 0 <= i < |s| ==> t[i] == LowerChar(s[i])
  {
    seq(|s|, i requires 0 <= i < |s| => LowerChar(s[i]))
  }

  /** Case-insensitive equality, character by character. */
  predicate EqualFold(a: string, b: string) {
    |a| == |b| && forall i :: 0 <= i < |a| ==> LowerChar(a[i]) == LowerChar(b[i])
  }

  predicate HasSuffix(s: string, suffix: string) {
    |suffix| <= |s| && s[|s| - |suffix|..] == suffix
  }

  predicate ColonFree(s: string) {
    forall i :: 0 <= i < |s| ==> s[i] != ':'
  }

  /** `strings.LastIndex(s, ":")`. */
  function LastColon(s: string): (r: int)
    ensures -1 <= r < |s|
    ensures 0 <= r ==> s[r] == ':'
    ensures forall i :: r < i < |s| ==> s[i] != ':'
  {
    if s == "" then -1
    else if s[|s| - 1] == ':' then |s| - 1
    else LastColon(s[..|s| - 1])
  }

  lemma EqualFoldIsLowerEqual(a: string, b: string)
    ensures EqualFold(a, b) <==> Lower(a) == Lower(b)
  {
    if Lower(a) == Lower(b) {
      forall i | 0 <= i < |a| ensures LowerChar(a[i]) == LowerChar(b[i]) {
        assert Lower(a)[i] == Lower(b)[i];
      }
    }
  }

  lemma LowerKeepsSpace(c: char)
    ensures IsSpace(LowerChar(c)) <==> IsSpace(c)
    ensures LowerChar(LowerChar(c)) == LowerChar(c)
  {}

  /** Trimming yields the empty string exactly for blank input, never lengthens, and the
      result has no white space at either end. */
  lemma TrimProperties(s: string)
    ensures Trim(s) == "" <==> Blank(s)
    ensures Trim(s) != "" ==> !IsSpace(Trim(s)[0]) && !IsSpace(Trim(s)[|Trim(s)| - 1])
    ensures |Trim(s)| <= |s| && (|Trim(s)| == |s| ==> Trim(s) == s)
  {
    var k := SkipSpace(s, 0);
    var l := s[k..];
    SkipSpaceStops(s, 0);
    SkipSpaceBackStops(l, |l|);
    assert l != "" ==> l[0] == s[k];
    if Blank(s) {
      assert l == "";
    } else {
      var i :| 0 <= i < |s| && !IsSpace(s[i]);
      assert l[i - k] == s[i];
    }
  }

  /** Text without white space at its ends is left alone by Trim. */
  lemma TrimFixed(s: string)
    requires s == "" || (!IsSpace(s[0]) && !IsSpace(s[|s| - 1]))
    ensures Trim(s) == s
  {}

  lemma TrimIdempotent(s: string)
    ensures Trim(Trim(s)) == Trim(s)
  {
    TrimProperties(s);
    TrimFixed(Trim(s));
  }
}
