/** The edit preview (capability/registry/edit_record.go): a minimal unified hunk, and its cut
    to 2048 bytes on a UTF-8 boundary. */
module EditRecord {
  import opened Bytes

  // ----- lines -----

  /** `strings.Split(s, "\n")`. */
  function Lines(s: seq<Byte>): (ls: seq<seq<Byte>>)
    ensures ls != []
    decreases |s|
  {
    if s == [] then [[]]
    else
      var rest := Lines(s[1..]);
      if s[0] == LF then [[]] + rest else [[s[0]] + rest[0]] + rest[1..]
  }

  /** `strings.Join(ls, "\n")`. */
  function Join(ls: seq<seq<Byte>>): seq<Byte>
    requires ls != []
  {
    if |ls| == 1 then ls[0] else ls[0] + [LF] + Join(ls[1..])
  }

  lemma {:induction false} JoinLines(s: seq<Byte>)
    ensures Join(Lines(s)) == s
    ensures forall i :: 0 <= i < |Lines(s)| ==> NoLF(Lines(s)[i])
    decreases |s|
  {
    if s != [] {
      JoinLines(s[1..]);
      var rest := Lines(s[1..]);
      assert s == [s[0]] + s[1..];
      if s[0] == LF {
        assert ([[]] + rest)[1..] == rest;
      } else {
        var ls := [[s[0]] + rest[0]] + rest[1..];
        if |rest| > 1 { assert ls[1..] == rest[1..]; }
      }
    }
  }

  function CountLF(s: seq<Byte>): nat {
    if s == [] then 0 else (if s[0] == LF then 1 else 0) + CountLF(s[1..])
  }

  /** The line count stored beside the preview. */
  function CountLines(s: seq<Byte>): nat {
    if s == [] then 0
    else if s[|s| - 1] == LF then CountLF(s)
    else CountLF(s) + 1
  }

  lemma {:induction false} LinesCount(s: seq<Byte>)
    ensures |Lines(s)| == CountLF(s) + 1
    decreases |s|
  {
    if s != [] { LinesCount(s[1..]); }
  }

  /** The hunk header and the stored line count agree exactly for text that is not empty and
      does not end in a newline; otherwise the header counts one more. */
  lemma HeaderAgreesWithCount(s: seq<Byte>)
    ensures |Lines(s)| == CountLines(s) <==> s != [] && s[|s| - 1] != LF
    ensures |Lines(s)| == CountLines(s) || |Lines(s)| == CountLines(s) + 1
  {
    LinesCount(s);
  }

  // ----- decimal numbers -----

  function Digit(d: nat): (b: Byte)
    requires d < 10
    ensures 48 <= b < 58
  {
    (48 + d) as Byte
  }

  function Decimal(n: nat): seq<Byte> {
    if n < 10 then [Digit(n)] else Decimal(n / 10) + [Digit(n % 10)]
  }

  predicate IsDigit(b: Byte) {
    48 <= b < 58
  }

  function DigitsEnd(s: seq<Byte>): (n: nat)
    ensures n <= |s| && (forall i :: 0 <= i < n ==> IsDigit(s[i])) && (n < |s| ==> !IsDigit(s[n]))
  {
    if s == [] || !IsDigit(s[0]) then 0 else 1 + DigitsEnd(s[1..])
  }

  function Number(s: seq<Byte>): nat {
    if s == [] then 0 else 10 * Number(s[..|s| - 1]) + (if IsDigit(s[|s| - 1]) then s[|s| - 1] as int - 48 else 0)
  }

  lemma {:induction false} DecimalRoundTrip(n: nat)
    ensures Number(Decimal(n)) == n
    ensures forall i :: 0 <= i < |Decimal(n)| ==> IsDigit(Decimal(n)[i])
  {
    if n >= 10 {
      DecimalRoundTrip(n / 10);
      var d := Decimal(n);
      assert d[..|d| - 1] == Decimal(n / 10);
    } else {
      assert Decimal(n)[..0] == [];
    }
  }

  // ----- the hunk -----

  const MINUS: Byte := 45
  const PLUS: Byte := 43
  const OPENING: seq<Byte> := [64, 64, 32, 45, 49, 44]  // "@@ -1,"
  const BETWEEN: seq<Byte> := [32, 43, 49, 44]          // " +1,"
  const CLOSING: seq<Byte> := [32, 64, 64]              // " @@"

  /** Each line with its mark in front and a newline behind. */
  function Marked(mark: Byte, ls: seq<seq<Byte>>): seq<Byte> {
    if ls == [] then [] else [mark] + ls[0] + [LF] + Marked(mark, ls[1..])
  }

  function Header(removed: nat, added: nat): seq<Byte> {
    OPENING + Decimal(removed) + BETWEEN + Decimal(added) + CLOSING
  }

  function Hunk(before: seq<Byte>, after: seq<Byte>): seq<Byte> {
    if before == after then []
    else
      Header(|Lines(before)|, |Lines(after)|) + [LF] + Marked(MINUS, Lines(before)) + Marked(PLUS, Lines(after))
  }

  /** The bytes of an ASCII text. */
  function Ascii(s: string): seq<Byte>
    requires forall i :: 0 <= i < |s| ==> s[i] < 128 as char
  {
    seq(|s|, i requires 0 <= i < |s| => s[i] as int as Byte)
  }

  /** The fixed parts of a hunk, as text. */
  lemma FixedParts()
    ensures OPENING == Ascii("@@ -1,") && BETWEEN == Ascii(" +1,") && CLOSING == Ascii(" @@")
    ensures [MINUS] == Ascii("-") && [PLUS] == Ascii("+")
  {}

  /** The hunk as it is printed, for one line on each side. */
  lemma HunkOfOneLine(a: Byte, b: Byte)
    requires a != LF && b != LF && a != b
    ensures Hunk([a], [b])
            == OPENING + [49] + BETWEEN + [49] + CLOSING + [LF] + ([MINUS, a, LF]) + ([PLUS, b, LF])
  {
    OneLine(MINUS, a);
    OneLine(PLUS, b);
    assert Decimal(1) == [49];
  }

  lemma OneLine(mark: Byte, a: Byte)
    requires a != LF
    ensures Lines([a]) == [[a]] && Marked(mark, [[a]]) == [mark, a, LF]
  {
    assert [a][1..] == [] && [[a]][1..] == [] && Lines([]) == [[]];
    assert [a] + [] == [a];
  }

  lemma {:induction false} MarkedAppend(mark: Byte, ls: seq<seq<Byte>>, l: seq<Byte>)
    ensures Marked(mark, ls + [l]) == Marked(mark, ls) + [mark] + l + [LF]
    decreases |ls|
  {
    if ls == [] {
      assert ls + [l] == [l];
    } else {
      assert (ls + [l])[1..] == ls[1..] + [l];
      MarkedAppend(mark, ls[1..], l);
    }
  }

  method WriteMarked(mark: Byte, ls: seq<seq<Byte>>, start: seq<Byte>) returns (out: seq<Byte>)
    ensures out == start + Marked(mark, ls)
  {
    out := start;
    for i := 0 to |ls|
      invariant out == start + Marked(mark, ls[..i])
    {
      MarkedAppend(mark, ls[..i], ls[i]);
      assert ls[..i + 1] == ls[..i] + [ls[i]];
      out := out + [mark];
      out := out + ls[i];
      out := out + [LF];
    }
    assert ls[..|ls|] == ls;
  }

  method BuildUnifiedHunk(before: seq<Byte>, after: seq<Byte>) returns (out: seq<Byte>)
    ensures out == Hunk(before, after)
  {
    if before == after {
      return [];
    }
    var oldLines, newLines := Lines(before), Lines(after);
    out := OPENING + Decimal(|oldLines|) + BETWEEN + Decimal(|newLines|) + CLOSING + [LF];
    out := WriteMarked(MINUS, oldLines, out);
    out := WriteMarked(PLUS, newLines, out);
  }

  // ----- reading a hunk back -----

  /** The next newline from the k-th byte on, or the end. */
  function NextLF(s: seq<Byte>, k: nat): (i: nat)
    requires k <= |s|
    ensures k <= i <= |s| && (forall j :: k <= j < i ==> s[j] != LF) && (i < |s| ==> s[i] == LF)
    decreases |s| - k
  {
    if k == |s| || s[k] == LF then k else NextLF(s, k + 1)
  }

  /** The leading lines that carry the mark, without it, and what follows them. */
  function ReadMarked(mark: Byte, s: seq<Byte>): (seq<seq<Byte>>, seq<Byte>)
    decreases |s|
  {
    var i := NextLF(s, 0);
    if i == |s| || i == 0 || s[0] != mark then ([], s)
    else
      var (ls, rest) := ReadMarked(mark, s[i + 1..]);
      ([s[1..i]] + ls, rest)
  }

  function Drop(s: seq<Byte>, k: nat): seq<Byte> {
    if k <= |s| then s[k..] else []
  }

  /** The decimal number in front, and what follows it. */
  function ReadNumber(s: seq<Byte>): (nat, seq<Byte>) {
    (Number(s[..DigitsEnd(s)]), s[DigitsEnd(s)..])
  }

  datatype Edit = Edit(removed: nat, added: nat, before: seq<Byte>, after: seq<Byte>)

  /** A reader of hunks: two counts from the header, then the old and the new text. */
  function ReadHunk(h: seq<Byte>): Edit {
    var (removed, r1) := ReadNumber(Drop(h, |OPENING|));
    var (added, r2) := ReadNumber(Drop(r1, |BETWEEN|));
    var (olds, r3) := ReadMarked(MINUS, Drop(r2, |CLOSING| + 1));
    var (news, r4) := ReadMarked(PLUS, r3);
    Edit(removed, added, if olds == [] then [] else Join(olds), if news == [] then [] else Join(news))
  }

  lemma DropFront(a: seq<Byte>, b: seq<Byte>)
    ensures Drop(a + b, |a|) == b
  {}

  lemma ReadOneLine(mark: Byte, l: seq<Byte>, tail: seq<Byte>)
    requires mark != LF && NoLF(l)
    ensures var (ls, rest) := ReadMarked(mark, tail);
            ReadMarked(mark, [mark] + l + [LF] + tail) == ([l] + ls, rest)
  {
    var s := [mark] + l + [LF] + tail;
    var i := |l| + 1;
    assert s[0] == mark && s[i] == LF;
    assert forall k :: 1 <= k < i ==> s[k] == l[k - 1];
    assert NextLF(s, 0) == i;
    assert s[1..i] == l && s[i + 1..] == tail;
  }

  lemma {:induction false} ReadMarkedBack(mark: Byte, ls: seq<seq<Byte>>, rest: seq<Byte>)
    requires mark != LF && (forall i :: 0 <= i < |ls| ==> NoLF(ls[i])) && (rest == [] || rest[0] != mark)
    ensures ReadMarked(mark, Marked(mark, ls) + rest) == (ls, rest)
    decreases |ls|
  {
    if ls == [] {
      assert Marked(mark, ls) + rest == rest;
    } else {
      MarkedFirst(mark, ls, rest);
      ReadMarkedBack(mark, ls[1..], rest);
      ReadOneLine(mark, ls[0], Marked(mark, ls[1..]) + rest);
      assert [ls[0]] + ls[1..] == ls;
    }
  }

  lemma MarkedFirst(mark: Byte, ls: seq<seq<Byte>>, rest: seq<Byte>)
    requires ls != []
    ensures Marked(mark, ls) + rest == [mark] + ls[0] + [LF] + (Marked(mark, ls[1..]) + rest)
  {}

  lemma {:induction false} DigitsEndIs(a: seq<Byte>, b: seq<Byte>)
    requires (forall i :: 0 <= i < |a| ==> IsDigit(a[i])) && (b == [] || !IsDigit(b[0]))
    ensures DigitsEnd(a + b) == |a|
    decreases |a|
  {
    if a == [] {
      assert a + b == b;
    } else {
      assert (a + b)[1..] == a[1..] + b;
      DigitsEndIs(a[1..], b);
    }
  }

  lemma ReadNumberBack(n: nat, rest: seq<Byte>)
    requires rest != [] && !IsDigit(rest[0])
    ensures ReadNumber(Decimal(n) + rest) == (n, rest)
  {
    DecimalRoundTrip(n);
    DigitsEndIs(Decimal(n), rest);
    assert (Decimal(n) + rest)[..|Decimal(n)|] == Decimal(n);
  }

  lemma Regroup(a: seq<Byte>, b: seq<Byte>, c: seq<Byte>, d: seq<Byte>, e: seq<Byte>, f: seq<Byte>, g: seq<Byte>,
                h: seq<Byte>)
    ensures a + b + c + d + e + f + g + h == a + (b + (c + (d + (e + f + (g + h)))))
  {}

  /** Both texts, and the line counts, are recoverable from the hunk of any real change. */
  lemma HunkReadsBack(before: seq<Byte>, after: seq<Byte>)
    requires before != after
    ensures ReadHunk(Hunk(before, after)) == Edit(|Lines(before)|, |Lines(after)|, before, after)
  {
    var olds, news := Lines(before), Lines(after);
    var n, m := Decimal(|olds|), Decimal(|news|);
    var minus, plus := Marked(MINUS, olds), Marked(PLUS, news);
    var body := CLOSING + [LF] + (minus + plus);
    Regroup(OPENING, n, BETWEEN, m, CLOSING, [LF], minus, plus);
    assert Hunk(before, after) == OPENING + (n + (BETWEEN + (m + body)));
    DropFront(OPENING, n + (BETWEEN + (m + body)));
    ReadNumberBack(|olds|, BETWEEN + (m + body));
    DropFront(BETWEEN, m + body);
    ReadNumberBack(|news|, body);
    DropFront(CLOSING + [LF], minus + plus);
    BodyReadsBack(before, after);
  }

  lemma BodyReadsBack(before: seq<Byte>, after: seq<Byte>)
    ensures var minus, plus := Marked(MINUS, Lines(before)), Marked(PLUS, Lines(after));
            && ReadMarked(MINUS, minus + plus) == (Lines(before), plus)
            && ReadMarked(PLUS, plus) == (Lines(after), [])
            && Join(Lines(before)) == before && Join(Lines(after)) == after
  {
    var plus := Marked(PLUS, Lines(after));
    JoinLines(before);
    JoinLines(after);
    ReadMarkedBack(MINUS, Lines(before), plus);
    ReadMarkedBack(PLUS, Lines(after), []);
    assert plus + [] == plus;
  }

  // ----- the cut -----

  const MAX_PREVIEW := 2048

  /** A continuation byte: 10xxxxxx. */
  predicate Continuation(b: Byte) {
    0x80 <= b < 0xC0
  }

  /** `utf8.RuneStart`. */
  predicate RuneStart(b: Byte) {
    !Continuation(b)
  }

  /** Length of the well-formed byte sequence at the front, by the table in section 4 of
      RFC 3629; 0 if there is none. */
  function SequenceLength(s: seq<Byte>): (n: nat)
    ensures n <= 4 && n <= |s|
    ensures n > 0 ==> RuneStart(s[0]) && forall i :: 1 <= i < n ==> Continuation(s[i])
  {
    if s == [] then 0
    else if s[0] < 0x80 then 1
    else if |s| >= 2 && 0xC2 <= s[0] <= 0xDF && Continuation(s[1]) then 2
    else if |s| >= 3 && 0xE0 <= s[0] <= 0xEF && Continuation(s[1]) && Continuation(s[2]) &&
            (s[0] == 0xE0 ==> s[1] >= 0xA0) && (s[0] == 0xED ==> s[1] <= 0x9F) then 3
    else if |s| >= 4 && 0xF0 <= s[0] <= 0xF4 && Continuation(s[1]) && Continuation(s[2]) && Continuation(s[3]) &&
            (s[0] == 0xF0 ==> s[1] >= 0x90) && (s[0] == 0xF4 ==> s[1] <= 0x8F) then 4
    else 0
  }

  predicate ValidUtf8(s: seq<Byte>)
    decreases |s|
  {
    s == [] || (SequenceLength(s) > 0 && ValidUtf8(s[SequenceLength(s)..]))
  }

  /** Cutting well-formed text where a character starts leaves well-formed text. */
  lemma {:induction false} CutAtStart(s: seq<Byte>, k: nat)
    requires ValidUtf8(s) && k < |s| && RuneStart(s[k])
    ensures ValidUtf8(s[..k])
    decreases |s|
  {
    var n := SequenceLength(s);
    if k > 0 {
      assert k >= n;
      if k < |s| {
        assert s[n..][k - n] == s[k];
        CutAtStart(s[n..], k - n);
        assert s[..k][n..] == s[n..][..k - n];
        assert SequenceLength(s[..k]) == n;
      }
    }
  }

  /** In well-formed text a character starts at the given place or at most three before it. */
  lemma {:induction false} StartIsNear(s: seq<Byte>, k: nat) returns (j: nat)
    requires ValidUtf8(s) && k < |s|
    ensures j <= k <= j + 3 && RuneStart(s[j])
    decreases |s|
  {
    var n := SequenceLength(s);
    if k < n {
      j := 0;
    } else {
      var i := StartIsNear(s[n..], k - n);
      j := n + i;
      assert s[n..][i] == s[j];
    }
  }

  /** The longest cut at or below the limit that falls on a character start (or at 0). */
  ghost predicate CutPoint(preview: seq<Byte>, cut: nat) {
    && cut <= MAX_PREVIEW < |preview|
    && (cut == 0 || RuneStart(preview[cut]))
    && forall k :: cut < k <= MAX_PREVIEW ==> Continuation(preview[k])
  }

  method CapPreview(preview: seq<Byte>) returns (capped: seq<Byte>, truncated: bool)
    ensures truncated <==> |preview| > MAX_PREVIEW
    ensures !truncated ==> capped == preview
    ensures truncated ==> CutPoint(preview, |capped|) && capped == preview[..|capped|]
  {
    if |preview| <= MAX_PREVIEW {
      return preview, false;
    }
    var cut := MAX_PREVIEW;
    while cut > 0 && !RuneStart(preview[cut])
      invariant 0 <= cut <= MAX_PREVIEW
      invariant forall k :: cut < k <= MAX_PREVIEW ==> Continuation(preview[k])
    {
      cut := cut - 1;
    }
    return preview[..cut], true;
  }

  /** For well-formed text the capped preview is well-formed and gives up at most three bytes. */
  lemma CutIsCleanAndTight(preview: seq<Byte>, cut: nat)
    requires ValidUtf8(preview) && CutPoint(preview, cut)
    ensures ValidUtf8(preview[..cut])
    ensures 2045 <= cut <= 2048
  {
    var j := StartIsNear(preview, MAX_PREVIEW);
    assert RuneStart(preview[j]);
    CutAtStart(preview, cut);
  }

  /** The tight bound fails exactly when the last four candidate places all hold continuation
      bytes, which well-formed text never has. */
  lemma TightExactly(preview: seq<Byte>, cut: nat)
    requires CutPoint(preview, cut)
    ensures cut >= MAX_PREVIEW - 3 <==>
            exists k :: MAX_PREVIEW - 3 <= k <= MAX_PREVIEW && RuneStart(preview[k])
  {
    if cut >= MAX_PREVIEW - 3 { assert RuneStart(preview[cut]); }
  }
}
