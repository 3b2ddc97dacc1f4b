/** The line-or-chunk split function of the file search tool (capability/fs/files.go), driven
    the way `bufio.Scanner` drives it. */
module Splitter {
  import opened Options
  import opened Bytes

  function IndexFrom(data: seq<Byte>, k: nat): (i: int)
    requires k <= |data|
    ensures i == -1 || k <= i < |data|
    ensures 0 <= i ==> data[i] == LF
    ensures forall j :: k <= j < (if i < 0 then |data| else i) ==> data[j] != LF
    decreases |data| - k
  {
    if k == |data| then -1 else if data[k] == LF then k else IndexFrom(data, k + 1)
  }

  /** `bytes.IndexByte(data, '\n')`. */
  function IndexLF(data: seq<Byte>): int {
    IndexFrom(data, 0)
  }

  function DropCR(line: seq<Byte>): seq<Byte> {
    if line != [] && line[|line| - 1] == CR then line[..|line| - 1] else line
  }

  /** One answer of the split function; `advance == 0` asks for more data. */
  datatype Piece = Piece(advance: nat, token: Option<seq<Byte>>)

  function Split(max: nat, data: seq<Byte>, atEOF: bool): Piece {
    if atEOF && data == [] then Piece(0, None)
    else
      var limit := if |data| > max then max else |data|;
      var i := IndexLF(data[..limit]);
      if i >= 0 then Piece(i + 1, Some(DropCR(data[..i])))
      else if |data| >= max then Piece(max, Some(data[..max]))
      else if atEOF then Piece(|data|, Some(data))
      else Piece(0, None)
  }

  // ----- the scanner -----

  /** The scanner over a reader that delivers its bytes in these chunks (empty ones included):
      it asks the split function, and reads on when no token is ready. */
  function Scan(max: nat, buffer: seq<Byte>, chunks: seq<seq<Byte>>): seq<seq<Byte>>
    decreases |chunks|, |buffer|
  {
    var p := Split(max, buffer, chunks == []);
    if p.advance > 0 && p.advance <= |buffer| && p.token.Some? then
      [p.token.value] + Scan(max, buffer[p.advance..], chunks)
    else if chunks == [] then []
    else Scan(max, buffer + chunks[0], chunks[1..])
  }

  function Flatten(chunks: seq<seq<Byte>>): seq<Byte> {
    if chunks == [] then [] else chunks[0] + Flatten(chunks[1..])
  }

  /** The tokens of a whole stream, with all of it at hand. */
  function Tokens(max: nat, s: seq<Byte>): seq<seq<Byte>>
    requires 1 <= max
    decreases |s|
  {
    if s == [] then []
    else
      SplitAdvances(max, s);
      var p := Split(max, s, true);
      [p.token.value] + Tokens(max, s[p.advance..])
  }

  lemma SplitAdvances(max: nat, s: seq<Byte>)
    requires 1 <= max && s != []
    ensures 1 <= Split(max, s, true).advance <= |s| && Split(max, s, true).token.Some?
  {}

  lemma IndexOfPrefix(a: seq<Byte>, b: seq<Byte>)
    ensures IndexLF(a) >= 0 ==> IndexLF(a + b) == IndexLF(a)
  {
    var i, j := IndexLF(a), IndexLF(a + b);
    if i >= 0 {
      assert (a + b)[i] == LF;
      assert j <= i;
      assert (a + b)[j] == a[j];
    }
  }

  /** An answer given on part of the data is the answer for all of it. */
  lemma PartialAnswerStands(max: nat, buffer: seq<Byte>, more: seq<Byte>)
    requires 1 <= max && Split(max, buffer, false).advance > 0
    ensures Split(max, buffer + more, true) == Split(max, buffer, false)
    ensures Split(max, buffer, false).advance <= |buffer| && Split(max, buffer, false).token.Some?
  {
    var all := buffer + more;
    var limit := if |buffer| > max then max else |buffer|;
    var wide := if |all| > max then max else |all|;
    var i := IndexLF(buffer[..limit]);
    if i >= 0 {
      assert all[..wide] == buffer[..limit] + all[limit..wide];
      IndexOfPrefix(buffer[..limit], all[limit..wide]);
      assert all[..i] == buffer[..i];
    } else {
      assert all[..wide] == buffer[..limit];
      assert all[..max] == buffer[..max];
    }
  }

  /** However the reader delivers the stream, the scanner emits the same tokens. */
  lemma {:induction false} DeliveryDoesNotMatter(max: nat, buffer: seq<Byte>, chunks: seq<seq<Byte>>)
    requires 1 <= max
    ensures Scan(max, buffer, chunks) == Tokens(max, buffer + Flatten(chunks))
    decreases |chunks|, |buffer|
  {
    if Ready(max, buffer, chunks == []) {
      var n := Split(max, buffer, chunks == []).advance;
      DeliveryDoesNotMatter(max, buffer[n..], chunks);
      TokenTaken(max, buffer, chunks);
    } else if chunks != [] {
      DeliveryDoesNotMatter(max, buffer + chunks[0], chunks[1..]);
      assert buffer + chunks[0] + Flatten(chunks[1..]) == buffer + Flatten(chunks);
    } else {
      NothingLeft(max, buffer);
      assert buffer + Flatten(chunks) == [];
    }
  }

  /** The split function has a token. */
  predicate Ready(max: nat, buffer: seq<Byte>, atEOF: bool) {
    var p := Split(max, buffer, atEOF);
    0 < p.advance <= |buffer| && p.token.Some?
  }

  lemma NothingLeft(max: nat, buffer: seq<Byte>)
    requires 1 <= max && !Ready(max, buffer, true)
    ensures buffer == []
  {
    if buffer != [] { SplitAdvances(max, buffer); }
  }

  /** A token the scanner takes is the first of all that is still to come. */
  lemma TokenTaken(max: nat, buffer: seq<Byte>, chunks: seq<seq<Byte>>)
    requires 1 <= max && Ready(max, buffer, chunks == [])
    ensures var p := Split(max, buffer, chunks == []);
            Tokens(max, buffer + Flatten(chunks))
            == [p.token.value] + Tokens(max, buffer[p.advance..] + Flatten(chunks))
  {
    var p, all := Split(max, buffer, chunks == []), buffer + Flatten(chunks);
    if chunks == [] { assert all == buffer; } else { PartialAnswerStands(max, buffer, Flatten(chunks)); }
    assert all != [] && Split(max, all, true) == p;
    CutOfAppend(buffer, Flatten(chunks), p.advance);
  }

  lemma CutOfAppend(a: seq<Byte>, b: seq<Byte>, k: nat)
    requires k <= |a|
    ensures (a + b)[k..] == a[k..] + b
  {}

  /** A buffer of maxChunk bytes never fills up without a token: the scanner cannot report a
      line too long. */
  lemma FullBufferYields(max: nat, buffer: seq<Byte>)
    requires 1 <= max <= |buffer|
    ensures 1 <= Split(max, buffer, false).advance <= |buffer| && Split(max, buffer, false).token.Some?
  {}

  // ----- nothing is lost -----

  /** What was dropped after a token: nothing, a newline, or a carriage return and newline. */
  predicate Separator(sep: seq<Byte>) {
    sep == [] || sep == [LF] || sep == [CR, LF]
  }

  function Separators(max: nat, s: seq<Byte>): seq<seq<Byte>>
    requires 1 <= max
    decreases |s|
  {
    if s == [] then []
    else
      SplitAdvances(max, s);
      var p := Split(max, s, true);
      var t := p.token.value;
      (if |t| <= p.advance then [s[|t|..p.advance]] else [[]]) + Separators(max, s[p.advance..])
  }

  function Interleave(tokens: seq<seq<Byte>>, seps: seq<seq<Byte>>): seq<Byte>
    requires |tokens| == |seps|
  {
    if tokens == [] then [] else tokens[0] + seps[0] + Interleave(tokens[1..], seps[1..])
  }

  /** One step: the consumed bytes are the token and a separator, and only a full chunk or the
      end of the stream goes without one. */
  lemma PieceIsTokenAndSeparator(max: nat, s: seq<Byte>)
    requires 1 <= max && s != []
    ensures var p := Split(max, s, true);
            && p.token.Some? && 1 <= p.advance <= |s| && |p.token.value| <= p.advance && |p.token.value| <= max
            && p.token.value == s[..|p.token.value|] && NoLF(p.token.value)
            && Separator(s[|p.token.value|..p.advance])
            && (|p.token.value| == p.advance ==> p.advance == max || p.advance == |s|)
  {
    var limit := if |s| > max then max else |s|;
    var i := IndexLF(s[..limit]);
    if i >= 0 { LineIsTokenAndSeparator(s, limit, i); } else { ChunkIsToken(s, limit); }
  }

  lemma LineIsTokenAndSeparator(s: seq<Byte>, limit: nat, i: nat)
    requires i < limit <= |s| && i == IndexLF(s[..limit])
    ensures var t := DropCR(s[..i]);
            && |t| <= i && t == s[..|t|] && NoLF(t) && Separator(s[|t|..i + 1]) && |t| < i + 1
  {
    var line := s[..i];
    assert s[..limit][i] == s[i];
    assert forall k :: 0 <= k < i ==> line[k] == s[..limit][k];
    assert s[i] == LF && s[i..i + 1] == [LF];
    if i > 0 {
      assert line[i - 1] == s[i - 1];
      assert s[i - 1..i + 1] == [s[i - 1], s[i]];
    }
  }

  lemma ChunkIsToken(s: seq<Byte>, limit: nat)
    requires limit <= |s| && IndexLF(s[..limit]) < 0
    ensures NoLF(s[..limit]) && s[limit..limit] == []
  {}

  lemma TokensSplit(max: nat, s: seq<Byte>)
    requires 1 <= max && s != []
    ensures var p := Split(max, s, true);
            && p.token.Some? && p.advance <= |s| && |p.token.value| <= p.advance
            && Tokens(max, s) == [p.token.value] + Tokens(max, s[p.advance..])
            && Separators(max, s) == [s[|p.token.value|..p.advance]] + Separators(max, s[p.advance..])
  {
    PieceIsTokenAndSeparator(max, s);
  }

  lemma InterleaveCons(t: seq<Byte>, sep: seq<Byte>, tokens: seq<seq<Byte>>, seps: seq<seq<Byte>>)
    requires |tokens| == |seps|
    ensures Interleave([t] + tokens, [sep] + seps) == t + sep + Interleave(tokens, seps)
  {
    assert ([t] + tokens)[1..] == tokens && ([sep] + seps)[1..] == seps;
  }

  lemma Pieces(s: seq<Byte>, i: nat, j: nat)
    requires i <= j <= |s|
    ensures s == s[..i] + s[i..j] + s[j..]
  {}

  /** The whole stream is consumed: tokens and separators, in order, give it back. */
  lemma {:induction false} NothingIsLost(max: nat, s: seq<Byte>)
    requires 1 <= max
    ensures |Separators(max, s)| == |Tokens(max, s)|
    ensures Interleave(Tokens(max, s), Separators(max, s)) == s
    decreases |s|
  {
    if s != [] {
      TokensSplit(max, s);
      PieceIsTokenAndSeparator(max, s);
      var p := Split(max, s, true);
      var t, rest := p.token.value, s[p.advance..];
      NothingIsLost(max, rest);
      InterleaveCons(t, s[|t|..p.advance], Tokens(max, rest), Separators(max, rest));
      Pieces(s, |t|, p.advance);
    }
  }

  /** A token and what follows it; `last` if the stream ends there. */
  predicate Proper(max: nat, token: seq<Byte>, sep: seq<Byte>, last: bool) {
    |token| <= max && NoLF(token) && Separator(sep) && (sep == [] && !last ==> |token| == max)
  }

  /** Every token is at most maxChunk bytes and free of newlines; what lies between tokens is at
      most a newline and the carriage return before it, and nothing only after a full chunk. */
  lemma {:induction false} TokensAreProper(max: nat, s: seq<Byte>, i: nat)
    requires 1 <= max && i < |Tokens(max, s)|
    ensures |Separators(max, s)| == |Tokens(max, s)|
    ensures Proper(max, Tokens(max, s)[i], Separators(max, s)[i], i == |Tokens(max, s)| - 1)
    decreases |s|
  {
    TokensSplit(max, s);
    PieceIsTokenAndSeparator(max, s);
    NothingIsLost(max, s);
    var p := Split(max, s, true);
    if i > 0 {
      TokensAreProper(max, s[p.advance..], i - 1);
    }
  }

  // ----- against plain line scanning -----

  /** `bufio.ScanLines` over a whole stream. */
  function Lines(s: seq<Byte>): seq<seq<Byte>>
    decreases |s|
  {
    if s == [] then []
    else
      var i := IndexLF(s);
      if i < 0 then [DropCR(s)] else [DropCR(s[..i])] + Lines(s[i + 1..])
  }

  /** Every terminated line is shorter than a chunk; an unterminated last one fits into a chunk
      and does not end in a carriage return. */
  predicate Fits(max: nat, s: seq<Byte>)
    decreases |s|
  {
    if s == [] then true
    else
      var i := IndexLF(s);
      if i < 0 then |s| <= max && s[|s| - 1] != CR else i < max && Fits(max, s[i + 1..])
  }

  lemma IndexInside(s: seq<Byte>, limit: nat)
    requires limit <= |s|
    ensures IndexLF(s[..limit]) == if 0 <= IndexLF(s) < limit then IndexLF(s) else -1
  {
    var i, j := IndexLF(s), IndexLF(s[..limit]);
    if 0 <= i < limit { assert s[..limit][i] == LF; assert j <= i && s[..limit][j] == s[j]; }
    if j >= 0 { assert s[..limit][j] == s[j]; }
  }

  lemma IndexAfterCut(s: seq<Byte>, k: nat)
    requires k <= |s| && (IndexLF(s) >= 0 ==> k <= IndexLF(s))
    ensures IndexLF(s[k..]) == if IndexLF(s) < 0 then -1 else IndexLF(s) - k
  {
    var i, t := IndexLF(s), s[k..];
    var j := IndexLF(t);
    if i >= 0 {
      assert t[i - k] == LF;
      assert j <= i - k && t[j] == s[k + j];
    } else {
      assert forall m :: 0 <= m < |t| ==> t[m] == s[k + m];
    }
  }

  /** Cutting the front off a line leaves the number of lines as it is. */
  lemma CutLineCount(s: seq<Byte>, k: nat)
    requires 0 < k <= |s| && (IndexLF(s) >= 0 ==> k <= IndexLF(s)) && (IndexLF(s) < 0 ==> k < |s|)
    ensures |Lines(s[k..])| == |Lines(s)|
  {
    IndexAfterCut(s, k);
    var i := IndexLF(s);
    if i >= 0 { assert s[k..][i - k + 1..] == s[i + 1..]; }
  }

  /** The first token, by where the first line ends. */
  lemma FirstToken(max: nat, s: seq<Byte>)
    requires 1 <= max && s != []
    ensures var i := IndexLF(s);
            && (0 <= i < max ==> Tokens(max, s) == [DropCR(s[..i])] + Tokens(max, s[i + 1..]))
            && (i >= max || (i < 0 && |s| > max) ==> Tokens(max, s) == [s[..max]] + Tokens(max, s[max..]))
            && (i < 0 && |s| <= max ==> Tokens(max, s) == [s])
  {
    SplitAdvances(max, s);
    var limit := if |s| > max then max else |s|;
    IndexInside(s, limit);
    if IndexLF(s) < 0 && |s| <= max { assert s[|s|..] == [] && s[..|s|] == s; }
  }

  lemma FirstLine(s: seq<Byte>)
    requires s != []
    ensures var i := IndexLF(s);
            Lines(s) == if i < 0 then [DropCR(s)] else [DropCR(s[..i])] + Lines(s[i + 1..])
  {}

  /** Splitting never yields fewer tokens than there are lines, and more as soon as a line does
      not fit into a chunk. */
  lemma {:induction false} TokenCount(max: nat, s: seq<Byte>)
    requires 1 <= max
    ensures |Tokens(max, s)| >= |Lines(s)|
    ensures s != [] && IndexLF(s) >= max ==> |Tokens(max, s)| > |Lines(s)|
    ensures s != [] && IndexLF(s) < 0 && |s| > max ==> |Tokens(max, s)| > |Lines(s)|
    decreases |s|
  {
    if s != [] {
      var i := IndexLF(s);
      FirstToken(max, s);
      FirstLine(s);
      if i >= max || (i < 0 && |s| > max) {
        TokenCount(max, s[max..]);
        CutLineCount(s, max);
      } else if i >= 0 {
        TokenCount(max, s[i + 1..]);
      }
    }
  }

  /** The splitter behaves like plain line scanning exactly on the streams whose lines fit: a
      line of exactly maxChunk bytes already yields an extra empty token, and a carriage return
      at the very end is kept. */
  lemma {:induction false} LinesExactlyWhenTheyFit(max: nat, s: seq<Byte>)
    requires 1 <= max
    ensures Tokens(max, s) == Lines(s) <==> Fits(max, s)
    decreases |s|
  {
    if s != [] {
      var i := IndexLF(s);
      TokenCount(max, s);
      FirstToken(max, s);
      FirstLine(s);
      if 0 <= i < max {
        LinesExactlyWhenTheyFit(max, s[i + 1..]);
        SameFirst(DropCR(s[..i]), Tokens(max, s[i + 1..]), Lines(s[i + 1..]));
      } else if i < 0 && |s| <= max {
        assert DropCR(s) == s <==> s[|s| - 1] != CR;
        assert [s][0] == s && [DropCR(s)][0] == DropCR(s);
      }
    }
  }

  lemma SameFirst(t: seq<Byte>, a: seq<seq<Byte>>, b: seq<seq<Byte>>)
    ensures [t] + a == [t] + b <==> a == b
  {
    assert ([t] + a)[1..] == a && ([t] + b)[1..] == b;
  }

  /** Every line of exactly maxChunk bytes, wherever it stands, yields itself and an extra empty
      token where plain line scanning yields one line. */
  lemma FullLineYieldsExtraToken(max: nat, line: seq<Byte>, rest: seq<Byte>)
    requires 1 <= max == |line| && NoLF(line)
    ensures Tokens(max, line + [LF] + rest) == [line, []] + Tokens(max, rest)
    ensures Lines(line + [LF] + rest) == [DropCR(line)] + Lines(rest)
  {
    var s := line + [LF] + rest;
    assert s[..max] == line && s[max..] == [LF] + rest && s[max] == LF && s[max + 1..] == rest;
    assert IndexLF(line) == -1;
    assert Split(max, s, true) == Piece(max, Some(line));
    assert Tokens(max, s) == [line] + Tokens(max, [LF] + rest);
    NewlineYieldsEmpty(max, rest);
    assert IndexLF(s) == max by {
      assert forall k :: 0 <= k < max ==> s[k] == line[k];
    }
  }

  lemma NewlineYieldsEmpty(max: nat, rest: seq<Byte>)
    requires 1 <= max
    ensures Tokens(max, [LF] + rest) == [[]] + Tokens(max, rest)
  {
    var s := [LF] + rest;
    assert s[0] == LF && s[1..] == rest;
    var limit := if |s| > max then max else |s|;
    assert s[..limit][0] == LF;
    assert IndexLF(s[..limit]) == 0;
    assert Split(max, s, true) == Piece(1, Some([]));
  }
}
