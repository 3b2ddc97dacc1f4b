/** The greedy glob matcher of the write-path precheck (capability/ports/provenance.go),
    against the textbook meaning of a pattern whose only metacharacter is the star. */
module Glob {
  import opened Text

  // ----- what a pattern means -----

  /** A star stands for any text; every other character for itself, ignoring ASCII case. */
  predicate Denotes(pattern: string, path: string)
    decreases |pattern| + |path|
  {
    if pattern == "" then path == ""
    else if pattern[0] == '*' then
      Denotes(pattern[1..], path) || (path != "" && Denotes(pattern, path[1..]))
    else
      path != "" && LowerChar(path[0]) == LowerChar(pattern[0]) && Denotes(pattern[1..], path[1..])
  }

  predicate StarFree(s: string) {
    forall i :: 0 <= i < |s| ==> s[i] != '*'
  }

  // ----- the code's pieces -----

  /** The next star from the k-th character on, or the end. */
  function NextStar(p: string, k: nat): (n: nat)
    requires k <= |p|
    ensures k <= n <= |p| && (forall i :: k <= i < n ==> p[i] != '*') && (n < |p| ==> p[n] == '*')
    decreases |p| - k
  {
    if k == |p| || p[k] == '*' then k else NextStar(p, k + 1)
  }

  /** Length of the literal at the front of a pattern. */
  function LiteralLength(p: string): (n: nat)
    ensures n <= |p| && forall i :: 0 <= i < n ==> p[i] != '*'
    ensures n < |p| ==> p[n] == '*'
  {
    NextStar(p, 0)
  }

  /** The non-empty literals between stars, in order. */
  function Segments(p: string): seq<string>
    decreases |p|
  {
    if p == "" then []
    else if p[0] == '*' then Segments(p[1..])
    else
      var n := LiteralLength(p);
      [p[..n]] + Segments(p[n..])
  }

  method SplitGlob(pattern: string) returns (parts: seq<string>)
    ensures parts == Segments(pattern)
  {
    parts := [];
    var start := 0;
    assert pattern[0..] == pattern;
    for i := 0 to |pattern|
      invariant start <= i && forall k :: start <= k < i ==> pattern[k] != '*'
      invariant Segments(pattern) == parts + Segments(pattern[start..])
    {
      if pattern[i] == '*' {
        NextPart(parts, pattern, start, i);
        if i > start {
          parts := parts + [pattern[start..i]];
        }
        start := i + 1;
      }
    }
    LastPart(parts, pattern, start);
    if start < |pattern| {
      parts := parts + [pattern[start..]];
    }
  }

  lemma LastPart(parts: seq<string>, p: string, start: nat)
    requires start <= |p| && forall k :: start <= k < |p| ==> p[k] != '*'
    ensures parts + Segments(p[start..]) == if start < |p| then parts + [p[start..]] else parts
  {
    SegmentEnds(p, start, |p|);
    assert p[start..|p|] == p[start..];
  }

  lemma NextPart(parts: seq<string>, p: string, start: nat, i: nat)
    requires start <= i < |p| && (forall k :: start <= k < i ==> p[k] != '*') && p[i] == '*'
    ensures var more := if start < i then parts + [p[start..i]] else parts;
            parts + Segments(p[start..]) == more + Segments(p[i + 1..])
  {
    SegmentEnds(p, start, i);
    Regroup(parts, if start < i then [p[start..i]] else [], Segments(p[i + 1..]));
  }

  lemma Regroup(a: seq<string>, b: seq<string>, c: seq<string>)
    ensures a + (b + c) == a + b + c && a + [] == a
  {}

  /** A literal runs up to the next star or the end. */
  lemma SegmentEnds(p: string, start: nat, i: nat)
    requires start <= i <= |p| && (forall k :: start <= k < i ==> p[k] != '*') && (i < |p| ==> p[i] == '*')
    ensures Segments(p[start..]) ==
            (if start < i then [p[start..i]] else []) + (if i < |p| then Segments(p[i + 1..]) else [])
  {
    var q := p[start..];
    var n := LiteralLength(q);
    assert start + n < |p| ==> q[n] == p[start + n];
    assert i < |p| ==> q[i - start] == '*';
    assert n == i - start;
    assert q[..n] == p[start..i] && q[n..] == p[i..];
    if i < |p| { assert p[i..][1..] == p[i + 1..]; }
  }

  /** The literal sits at position i of the text, ignoring ASCII case. */
  predicate FoldAt(s: string, i: nat, lit: string) {
    i + |lit| <= |s| && EqualFold(s[i..i + |lit|], lit)
  }

  method HasPrefixFold(s: string, prefix: string) returns (r: bool)
    ensures r <==> FoldAt(s, 0, prefix)
  {
    r := |prefix| <= |s| && EqualFold(s[..|prefix|], prefix);
  }

  predicate SuffixFold(s: string, suffix: string) {
    |suffix| <= |s| && EqualFold(s[|s| - |suffix|..], suffix)
  }

  /** The first occurrence, or -1. */
  method IndexFold(s: string, sub: string) returns (r: int)
    ensures r < 0 ==> forall i: nat :: !FoldAt(s, i, sub)
    ensures 0 <= r ==> FoldAt(s, r, sub) && forall i: nat :: i < r ==> !FoldAt(s, i, sub)
  {
    var i := 0;
    while i <= |s| - |sub|
      invariant 0 <= i
      invariant forall k: nat :: k < i ==> !FoldAt(s, k, sub)
    {
      if EqualFold(s[i..i + |sub|], sub) {
        return i;
      }
      i := i + 1;
    }
    return -1;
  }

  /** The literals occur one after the other, without overlap. */
  ghost predicate InOrder(parts: seq<string>, s: string)
    decreases |parts|
  {
    parts == [] ||
    exists i: nat :: FoldAt(s, i, parts[0]) && InOrder(parts[1..], s[i + |parts[0]|..])
  }

  /** The path splits into the literals in order: the first at its front, the last at its end,
      arbitrary text in between. */
  ghost predicate Decomposes(parts: seq<string>, path: string)
    requires |parts| >= 2
  {
    var first, last := parts[0], parts[|parts| - 1];
    && FoldAt(path, 0, first)
    && SuffixFold(path[|first|..], last)
    && InOrder(parts[1..|parts| - 1], path[|first|..|path| - |last|])
  }

  /** What the code accepts. */
  ghost predicate Accepts(pattern: string, path: string) {
    var parts := Segments(pattern);
    if pattern == "" then false
    else if pattern == "*" || pattern == "**" then true
    else if |parts| == 0 then false
    else if |parts| == 1 then path == parts[0]
    else Decomposes(parts, path)
  }

  // ----- greedy search is complete -----

  lemma FoldAtShift(s: string, k: nat, i: nat, lit: string)
    requires k <= |s|
    ensures FoldAt(s[k..], i, lit) <==> FoldAt(s, k + i, lit)
  {
    if k + i + |lit| <= |s| {
      assert s[k..][i..i + |lit|] == s[k + i..k + i + |lit|];
    }
  }

  /** More text in front never hurts. */
  lemma {:induction false} InOrderExtends(parts: seq<string>, s: string, k: nat)
    requires k <= |s| && InOrder(parts, s[k..])
    ensures InOrder(parts, s)
  {
    if parts != [] {
      var i: nat :| FoldAt(s[k..], i, parts[0]) && InOrder(parts[1..], s[k..][i + |parts[0]|..]);
      FoldAtShift(s, k, i, parts[0]);
      assert s[k..][i + |parts[0]|..] == s[k + i + |parts[0]|..];
    }
  }

  /** If the literals fit at all, they fit with the first one at its leftmost place. */
  lemma LeftmostSuffices(parts: seq<string>, s: string, r: nat)
    requires parts != [] && FoldAt(s, r, parts[0]) && forall i: nat :: i < r ==> !FoldAt(s, i, parts[0])
    ensures InOrder(parts, s) <==> InOrder(parts[1..], s[r + |parts[0]|..])
  {
    if InOrder(parts, s) {
      var i: nat :| FoldAt(s, i, parts[0]) && InOrder(parts[1..], s[i + |parts[0]|..]);
      var rest := s[r + |parts[0]|..];
      assert rest[i - r..] == s[i + |parts[0]|..];
      InOrderExtends(parts[1..], rest, i - r);
    }
  }

  method MatchGlob(pattern: string, path: string) returns (r: bool)
    ensures r <==> Accepts(pattern, path)
  {
    if pattern == "" {
      return false;
    }
    if pattern == "*" || pattern == "**" {
      return true;
    }
    var parts := SplitGlob(pattern);
    if |parts| == 0 {
      return false;
    }
    if |parts| == 1 {
      return path == parts[0];
    }
    r := MatchParts(parts, path);
  }

  /** The first literal in front, the last at the end, the others in between. */
  method MatchParts(parts: seq<string>, path: string) returns (r: bool)
    requires |parts| >= 2
    ensures r <==> Decomposes(parts, path)
  {
    var front := HasPrefixFold(path, parts[0]);
    if !front {
      return false;
    }
    var rest := path[|parts[0]|..];
    var last := parts[|parts| - 1];
    var middle := parts[1..|parts| - 1];
    if !SuffixFold(rest, last) {
      return false;
    }
    rest := rest[..|rest| - |last|];
    assert rest == path[|parts[0]|..|path| - |last|];
    r := Middle(middle, rest);
  }

  method Middle(middle: seq<string>, text: string) returns (r: bool)
    ensures r <==> InOrder(middle, text)
  {
    var rest := text;
    for k := 0 to |middle|
      invariant InOrder(middle, text) <==> InOrder(middle[k..], rest)
    {
      var idx := IndexFold(rest, middle[k]);
      if idx < 0 {
        return false;
      }
      LeftmostSuffices(middle[k..], rest, idx);
      assert middle[k..][1..] == middle[k + 1..];
      rest := rest[idx + |middle[k]|..];
    }
    return true;
  }

  // ----- the code against the meaning -----

  /** A literal in front consumes exactly its own length. */
  lemma {:induction false} LiteralFront(lit: string, rest: string, s: string)
    requires StarFree(lit)
    ensures Denotes(lit + rest, s) <==> FoldAt(s, 0, lit) && Denotes(rest, s[|lit|..])
    decreases |lit|
  {
    if lit == "" {
      assert lit + rest == rest && s[0..] == s;
    } else {
      var p := lit + rest;
      assert p[0] == lit[0] && p[1..] == lit[1..] + rest;
      if s != "" {
        LiteralFront(lit[1..], rest, s[1..]);
        FoldFront(lit, s);
        if |lit| <= |s| { assert s[1..][|lit| - 1..] == s[|lit|..]; }
      }
    }
  }

  lemma FoldFront(lit: string, s: string)
    requires lit != "" && s != ""
    ensures FoldAt(s, 0, lit) <==> LowerChar(s[0]) == LowerChar(lit[0]) && FoldAt(s[1..], 0, lit[1..])
  {
    if |lit| <= |s| {
      var a, b := s[0..|lit|], s[1..][0..|lit| - 1];
      assert forall i :: 0 <= i < |lit| - 1 ==> b[i] == a[i + 1] && lit[1..][i] == lit[i + 1];
      if EqualFold(b, lit[1..]) && LowerChar(s[0]) == LowerChar(lit[0]) {
        forall i | 0 <= i < |lit| ensures LowerChar(a[i]) == LowerChar(lit[i]) {
          if i > 0 { assert LowerChar(b[i - 1]) == LowerChar(lit[1..][i - 1]); }
        }
      }
      if EqualFold(a, lit) {
        forall i | 0 <= i < |lit| - 1 ensures LowerChar(b[i]) == LowerChar(lit[1..][i]) {
          assert LowerChar(a[i + 1]) == LowerChar(lit[i + 1]);
        }
      }
    }
  }

  /** A star in front skips any amount of text. */
  lemma {:induction false} StarFront(p: string, s: string)
    requires p != "" && p[0] == '*'
    ensures Denotes(p, s) <==> exists i: nat :: i <= |s| && Denotes(p[1..], s[i..])
    decreases |s|
  {
    assert s[0..] == s;
    if s != "" {
      StarFront(p, s[1..]);
      if i: nat :| i <= |s| && Denotes(p[1..], s[i..]) {
        if i > 0 { assert s[1..][i - 1..] == s[i..]; }
      }
      if i: nat :| i <= |s[1..]| && Denotes(p[1..], s[1..][i..]) {
        assert s[1..][i..] == s[i + 1..];
      }
    }
  }

  /** Gaps before every literal, the last one at the end of the text. */
  ghost predicate Trailing(parts: seq<string>, s: string)
    requires parts != []
    decreases |parts|
  {
    if |parts| == 1 then SuffixFold(s, parts[0])
    else exists i: nat :: FoldAt(s, i, parts[0]) && Trailing(parts[1..], s[i + |parts[0]|..])
  }

  predicate EndsLiteral(p: string) {
    p != "" && p[|p| - 1] != '*'
  }

  lemma {:induction false} SegmentsNonEmpty(p: string)
    requires EndsLiteral(p)
    ensures Segments(p) != []
    decreases |p|
  {
    if p[0] == '*' { SegmentsNonEmpty(p[1..]); }
  }

  lemma {:induction false} TrailingExtends(parts: seq<string>, s: string, k: nat)
    requires parts != [] && k <= |s| && Trailing(parts, s[k..])
    ensures Trailing(parts, s)
  {
    if |parts| == 1 {
      assert s[k..][|s[k..]| - |parts[0]|..] == s[|s| - |parts[0]|..];
    } else {
      var i: nat :| FoldAt(s[k..], i, parts[0]) && Trailing(parts[1..], s[k..][i + |parts[0]|..]);
      FoldAtShift(s, k, i, parts[0]);
      assert s[k..][i + |parts[0]|..] == s[k + i + |parts[0]|..];
    }
  }

  /** A pattern that starts with a star and ends with a literal. */
  lemma {:induction false} StarredMeaning(p: string, s: string)
    requires EndsLiteral(p) && p[0] == '*'
    ensures Segments(p) != []
    ensures Denotes(p, s) <==> Trailing(Segments(p), s)
    decreases |p|, 0
  {
    SegmentsNonEmpty(p);
    var q := p[1..];
    var segs := Segments(q);
    StarFront(p, s);
    if i: nat :| i <= |s| && Denotes(q, s[i..]) {
      SkippedMeaning(q, s[i..]);
      TrailingExtends(segs, s, i);
    }
    if Trailing(segs, s) {
      var i := SomeStart(q, s);
      assert Denotes(q, s[i..]);
    }
  }

  /** What a pattern ending in a literal needs, once the text in front has been skipped. */
  lemma {:induction false} SkippedMeaning(q: string, s: string)
    requires EndsLiteral(q) && Denotes(q, s)
    ensures Segments(q) != [] && Trailing(Segments(q), s)
    decreases |q|, 1
  {
    SegmentsNonEmpty(q);
    if q[0] == '*' {
      StarredMeaning(q, s);
    } else {
      var n := LiteralLength(q);
      assert q == q[..n] + q[n..] && StarFree(q[..n]);
      LiteralFront(q[..n], q[n..], s);
      if n == |q| {
        assert q[n..] == "" && Segments(q) == [q[..n]];
        assert s[n..] == "" && s[|s| - n..] == s[0..n];
      } else {
        StarredMeaning(q[n..], s[n..]);
        assert Segments(q) == [q[..n]] + Segments(q[n..]);
        assert Segments(q)[1..] == Segments(q[n..]);
        assert FoldAt(s, 0, Segments(q)[0]);
      }
    }
  }

  /** And where to skip to. */
  lemma {:induction false} SomeStart(q: string, s: string) returns (i: nat)
    requires EndsLiteral(q) && Segments(q) != [] && Trailing(Segments(q), s)
    ensures i <= |s| && Denotes(q, s[i..])
    decreases |q|, 1
  {
    if q[0] == '*' {
      StarredMeaning(q, s);
      assert s[0..] == s;
      return 0;
    }
    FirstSegment(q);
    var n, segs := LiteralLength(q), Segments(q);
    if n == |q| {
      LiteralAtEnd(q, s);
      return |s| - n;
    }
    SegmentsNonEmpty(q[n..]);
    i :| FoldAt(s, i, segs[0]) && Trailing(segs[1..], s[i + |segs[0]|..]);
    StarredMeaning(q[n..], s[i + n..]);
    LiteralThenRest(q, s, i);
  }

  lemma FirstSegment(q: string)
    requires q != "" && q[0] != '*'
    ensures var n := LiteralLength(q);
            if n == |q| then Segments(q) == [q]
            else Segments(q) == [q[..n]] + Segments(q[n..]) && Segments(q)[1..] == Segments(q[n..])
  {
    var n := LiteralLength(q);
    if n == |q| { assert q[..n] == q && q[n..] == ""; }
  }

  lemma LiteralAtEnd(q: string, s: string)
    requires q != "" && LiteralLength(q) == |q| && SuffixFold(s, q)
    ensures Denotes(q, s[|s| - |q|..])
  {
    var t := s[|s| - |q|..];
    assert t[0..|q|] == t && t[|q|..] == "";
    LiteralFront(q, "", t);
    assert q + "" == q;
  }

  lemma LiteralThenRest(q: string, s: string, i: nat)
    requires q != "" && FoldAt(s, i, q[..LiteralLength(q)]) && Denotes(q[LiteralLength(q)..], s[i + LiteralLength(q)..])
    ensures Denotes(q, s[i..])
  {
    var n := LiteralLength(q);
    assert q == q[..n] + q[n..];
    FoldAtShift(s, i, 0, q[..n]);
    assert s[i..][n..] == s[i + n..];
    LiteralFront(q[..n], q[n..], s[i..]);
  }

  /** The last literal at the end, the others in order before it. */
  ghost predicate Anchored(parts: seq<string>, s: string)
    requires parts != []
  {
    var last := parts[|parts| - 1];
    SuffixFold(s, last) && InOrder(parts[..|parts| - 1], s[..|s| - |last|])
  }

  lemma {:induction false} TrailingThenAnchored(parts: seq<string>, s: string)
    requires parts != [] && Trailing(parts, s)
    ensures Anchored(parts, s)
    decreases |parts|
  {
    if |parts| == 1 {
      assert parts[..0] == [];
    } else {
      var i: nat :| FoldAt(s, i, parts[0]) && Trailing(parts[1..], s[i + |parts[0]|..]);
      TrailingThenAnchored(parts[1..], s[i + |parts[0]|..]);
      AnchoredCons(parts, s, i);
    }
  }

  lemma AnchoredCons(parts: seq<string>, s: string, i: nat)
    requires |parts| > 1 && FoldAt(s, i, parts[0]) && Anchored(parts[1..], s[i + |parts[0]|..])
    ensures Anchored(parts, s)
  {
    var k, last := i + |parts[0]|, parts[|parts| - 1];
    FrontOfRest(parts);
    SuffixOfRest(s, k, last);
    BodySlices(s, i, k, |last|);
    InOrderCons(parts[..|parts| - 1], s[..|s| - |last|], i);
  }

  lemma InOrderCons(parts: seq<string>, s: string, i: nat)
    requires parts != [] && FoldAt(s, i, parts[0]) && InOrder(parts[1..], s[i + |parts[0]|..])
    ensures InOrder(parts, s)
  {}

  lemma {:induction false} AnchoredThenTrailing(parts: seq<string>, s: string)
    requires parts != [] && Anchored(parts, s)
    ensures Trailing(parts, s)
    decreases |parts|
  {
    if |parts| > 1 {
      var i := AnchoredRest(parts, s);
      AnchoredThenTrailing(parts[1..], s[i + |parts[0]|..]);
    }
  }

  lemma AnchoredRest(parts: seq<string>, s: string) returns (i: nat)
    requires |parts| > 1 && Anchored(parts, s)
    ensures FoldAt(s, i, parts[0]) && Anchored(parts[1..], s[i + |parts[0]|..])
  {
    var first, front, last := parts[0], parts[..|parts| - 1], parts[|parts| - 1];
    var body := s[..|s| - |last|];
    i :| FoldAt(body, i, front[0]) && InOrder(front[1..], body[i + |first|..]);
    FrontOfRest(parts);
    BodySlices(s, i, i + |first|, |last|);
    SuffixOfRest(s, i + |first|, last);
  }

  lemma FrontOfRest(parts: seq<string>)
    requires |parts| > 1
    ensures var n, front, rest := |parts|, parts[..|parts| - 1], parts[1..];
            front[0] == parts[0] && front[1..] == rest[..n - 2] && rest[n - 2] == parts[n - 1]
  {}

  /** Slices of a text without its end. */
  lemma BodySlices(s: string, i: nat, k: nat, end: nat)
    requires i <= k <= |s| - end
    ensures s[..|s| - end][i..k] == s[i..k] && s[..|s| - end][k..] == s[k..][..|s| - k - end]
  {}

  lemma SuffixOfRest(s: string, k: nat, suffix: string)
    requires k <= |s|
    ensures SuffixFold(s[k..], suffix) <==> SuffixFold(s, suffix) && k + |suffix| <= |s|
  {
    if k + |suffix| <= |s| {
      assert s[k..][|s| - k - |suffix|..] == s[|s| - |suffix|..];
    }
  }

  predicate HasStar(p: string) {
    !StarFree(p)
  }

  /** Such a pattern is its first literal, a star, and the rest. */
  lemma AnchoredShape(p: string)
    requires p != "" && HasStar(p) && p[0] != '*' && EndsLiteral(p)
    ensures var n := LiteralLength(p);
            && n < |p| && EndsLiteral(p[n..]) && p[n] == '*' && StarFree(p[..n])
            && Segments(p) == [p[..n]] + Segments(p[n..]) && Segments(p[n..]) != []
  {
    var n := LiteralLength(p);
    FirstSegment(p);
    RestEndsLiteral(p, n);
    SegmentsNonEmpty(p[n..]);
  }

  lemma RestEndsLiteral(p: string, n: nat)
    requires n < |p| && EndsLiteral(p)
    ensures EndsLiteral(p[n..])
  {
    assert p[n..][|p| - n - 1] == p[|p| - 1];
  }

  lemma DecomposesIsAnchored(lit: string, rest: seq<string>, path: string)
    requires rest != []
    ensures Decomposes([lit] + rest, path) <==> FoldAt(path, 0, lit) && Anchored(rest, path[|lit|..])
  {
    var parts := [lit] + rest;
    var last := rest[|rest| - 1];
    assert parts[1..|parts| - 1] == rest[..|rest| - 1];
    if FoldAt(path, 0, lit) && SuffixFold(path[|lit|..], last) {
      assert path[|lit|..][..|path| - |lit| - |last|] == path[|lit|..|path| - |last|];
    }
  }

  /** A pattern with a star that starts and ends with a literal is matched exactly as it reads:
      the greedy search accepts a path exactly when some decomposition exists. */
  lemma AnchoredPatternsAreExact(p: string, path: string)
    requires p != "" && HasStar(p) && p[0] != '*' && EndsLiteral(p)
    ensures Accepts(p, path) <==> Denotes(p, path)
  {
    AnchoredShape(p);
    var n := LiteralLength(p);
    var lit, rest := p[..n], p[n..];
    assert p == lit + rest;
    LiteralFront(lit, rest, path);
    var segs := Segments(rest);
    DecomposesIsAnchored(lit, segs, path);
    if FoldAt(path, 0, lit) {
      var t := path[n..];
      StarredMeaning(rest, t);
      if Trailing(segs, t) { TrailingThenAnchored(segs, t); }
      if Anchored(segs, t) { AnchoredThenTrailing(segs, t); }
    }
  }

  // ----- all other patterns -----

  /** The pattern with its stars left empty always matches. */
  lemma {:induction false} EmptyStars(p: string)
    ensures Denotes(p, Concat(Segments(p)))
    decreases |p|
  {
    if p == "" {
    } else if p[0] == '*' {
      EmptyStars(p[1..]);
    } else {
      var n := LiteralLength(p);
      var lit, rest := p[..n], p[n..];
      EmptyStars(rest);
      var tail := Concat(Segments(rest));
      assert Segments(p) == [lit] + Segments(rest) && Segments(p)[1..] == Segments(rest);
      assert (lit + tail)[0..n] == lit && (lit + tail)[n..] == tail;
      LiteralFront(lit, rest, lit + tail);
      assert lit + rest == p;
    }
  }

  function Concat(parts: seq<string>): string {
    if parts == [] then "" else parts[0] + Concat(parts[1..])
  }

  /** A final star absorbs one more character. */
  lemma {:induction false} FinalStarAbsorbs(p: string, s: string, x: char)
    requires p != "" && p[|p| - 1] == '*' && Denotes(p, s)
    ensures Denotes(p, s + [x])
    decreases |p| + |s|
  {
    var t := s + [x];
    if p[0] == '*' {
      if |p| == 1 {
        OnlyStar(p, t);
      } else if Denotes(p[1..], s) {
        FinalStarAbsorbs(p[1..], s, x);
      } else {
        FinalStarAbsorbs(p, s[1..], x);
        assert t[1..] == s[1..] + [x];
      }
    } else {
      FinalStarAbsorbs(p[1..], s[1..], x);
      assert t[1..] == s[1..] + [x];
    }
  }

  lemma {:induction false} OnlyStar(p: string, s: string)
    requires |p| == 1 && p[0] == '*'
    ensures Denotes(p, s)
    decreases |s|
  {
    if s != "" { OnlyStar(p, s[1..]); }
  }

  lemma {:induction false} SegmentsAreLiterals(p: string)
    ensures forall i :: 0 <= i < |Segments(p)| ==> Segments(p)[i] != ""
    decreases |p|
  {
    if p != "" {
      if p[0] == '*' { SegmentsAreLiterals(p[1..]); } else { SegmentsAreLiterals(p[LiteralLength(p)..]); }
    }
  }

  /** A character that is not the given one in either case. */
  function Unlike(c: char): (x: char)
    ensures LowerChar(x) != LowerChar(c)
  {
    if c == '0' then '1' else '0'
  }

  /** A leading star is forgotten by the code: some path it denotes is refused. */
  lemma LeadingStarIsForgotten(p: string) returns (path: string)
    requires |p| > 1 && p[0] == '*' && p != "**"
    ensures Denotes(p, path) && !Accepts(p, path)
  {
    var segs := Segments(p);
    EmptyStars(p);
    SegmentsAreLiterals(p);
    if segs == [] {
      return Concat(segs);
    }
    path := [Unlike(segs[0][0])] + Concat(segs);
    assert path[1..] == Concat(segs);
    assert path[0..|segs[0]|][0] == Unlike(segs[0][0]);
    if |segs| == 1 { assert Concat(segs) == segs[0]; }
  }

  lemma {:induction false} ConcatLength(parts: seq<string>, i: nat)
    requires i < |parts|
    ensures |Concat(parts)| >= |parts[i]|
    decreases |parts|
  {
    if i > 0 { ConcatLength(parts[1..], i - 1); }
  }

  /** So is a trailing star. */
  lemma TrailingStarIsForgotten(p: string) returns (path: string)
    requires p != "" && p[0] != '*' && !EndsLiteral(p)
    ensures Denotes(p, path) && !Accepts(p, path)
  {
    var segs := Segments(p);
    EmptyStars(p);
    SegmentsAreLiterals(p);
    var last := segs[|segs| - 1];
    var x := Unlike(last[|last| - 1]);
    path := Concat(segs) + [x];
    FinalStarAbsorbs(p, Concat(segs), x);
    if |segs| == 1 {
      assert Concat(segs) == segs[0];
    } else {
      ConcatLength(segs, 0);
      SuffixMismatch(path[|segs[0]|..], last, x);
    }
  }

  lemma SuffixMismatch(s: string, suffix: string, x: char)
    requires suffix != "" && s != "" && s[|s| - 1] == x
    requires LowerChar(x) != LowerChar(suffix[|suffix| - 1])
    ensures !SuffixFold(s, suffix)
  {
    if |suffix| <= |s| {
      assert s[|s| - |suffix|..][|suffix| - 1] == x;
    }
  }

  predicate IsLetter(c: char) {
    'a' <= c <= 'z' || 'A' <= c <= 'Z'
  }

  function SwapCase(c: char): (d: char)
    requires IsLetter(c)
    ensures d != c && LowerChar(d) == LowerChar(c)
  {
    if 'A' <= c <= 'Z' then (c as int + 32) as char else (c as int - 32) as char
  }

  lemma LiteralMeaning(p: string, s: string)
    requires StarFree(p)
    ensures Denotes(p, s) <==> EqualFold(s, p)
  {
    assert p + "" == p;
    LiteralFront(p, "", s);
    if |s| == |p| { assert s[0..|p|] == s; }
  }

  lemma LiteralSegment(p: string)
    requires StarFree(p) && p != ""
    ensures Segments(p) == [p]
  {
    assert p[0..] == p && p[0..|p|] == p;
    SegmentEnds(p, 0, |p|);
  }

  /** Patterns the code reads as they are meant: the two match-all forms, a star between literal
      ends, and star-free text without letters (which the code compares exactly). */
  predicate Faithful(p: string) {
    || p == "*" || p == "**"
    || (p != "" && HasStar(p) && p[0] != '*' && EndsLiteral(p))
    || (p != "" && StarFree(p) && forall i :: 0 <= i < |p| ==> !IsLetter(p[i]))
  }

  lemma FaithfulAgrees(p: string, path: string)
    requires Faithful(p)
    ensures Accepts(p, path) <==> Denotes(p, path)
  {
    if p == "*" {
      OnlyStar(p, path);
    } else if p == "**" {
      assert p[1..] == "*";
      OnlyStar(p[1..], path);
    } else if HasStar(p) {
      AnchoredPatternsAreExact(p, path);
    } else {
      LiteralMeaning(p, path);
      LiteralSegment(p);
      if EqualFold(path, p) {
        forall i | 0 <= i < |p| ensures path[i] == p[i] { LetterFree(path[i], p[i]); }
        assert path == p;
      }
    }
  }

  lemma LetterFree(c: char, d: char)
    requires LowerChar(c) == LowerChar(d) && !IsLetter(d)
    ensures c == d
  {}

  lemma UnfaithfulDiffers(p: string) returns (path: string)
    requires !Faithful(p)
    ensures Accepts(p, path) != Denotes(p, path)
  {
    if p == "" {
      path := "";
    } else if StarFree(p) {
      var i :| 0 <= i < |p| && IsLetter(p[i]);
      path := p[i := SwapCase(p[i])];
      LiteralMeaning(p, path);
      LiteralSegment(p);
      assert path[i] != p[i];
    } else if p[0] == '*' {
      path := LeadingStarIsForgotten(p);
    } else {
      path := TrailingStarIsForgotten(p);
    }
  }

  /** Exactly when the code and the meaning of a pattern agree on every path. */
  lemma AgreementIsExact(p: string)
    ensures (forall path :: Accepts(p, path) <==> Denotes(p, path)) <==> Faithful(p)
  {
    if Faithful(p) {
      forall path ensures Accepts(p, path) <==> Denotes(p, path) { FaithfulAgrees(p, path); }
    } else {
      var path := UnfaithfulDiffers(p);
    }
  }
}
