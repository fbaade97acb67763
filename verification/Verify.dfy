/**
  Verification of candidate files (src/query/executor.rs:468-531, 1194-1480): the
  matches of a verification tree, and the early-exit form that only asks whether
  there is one.
*/
module Verify {
  import opened Prelude
  import opened Text
  import opened Scanner

  datatype VerificationStep =
    | Literal(text: string)
    | BoostedLiteral(text: string, boost: nat)
    | Phrase(text: string, caseInsensitive: bool)
    | Regex(pattern: string)
    | Near(terms: seq<string>, distance: nat)
    | And(steps: seq<VerificationStep>)
    | Or(steps: seq<VerificationStep>)
    | Not(inner: VerificationStep)

  /** The regex crate: whether a text matches as a whole, and the matching lines. */
  datatype Engine = Engine(isMatch: (string, seq<Byte>) -> bool, matches: (string, seq<Byte>) -> seq<Match>)

  predicate NoBreak(needle: seq<Byte>) {
    LF !in needle && CR !in needle
  }

  // ------------------------------------------------------------------- literals

  function Fold(lower: bool, line: seq<Byte>): seq<Byte> {
    if lower then LowerBytes(line) else line
  }

  function MatchIn(line: seq<Byte>, lower: bool, needle: seq<Byte>, number: nat): seq<Match> {
    var hay := Fold(lower, line);
    var p := FirstFrom(hay, needle, 0, |hay|);
    if p.Some? then [Match(number, line, p.value, p.value + |needle|)] else []
  }

  /** One line after the other, first occurrence in each. */
  function LineMatches(lines: seq<seq<Byte>>, lower: bool, needle: seq<Byte>, number: nat): seq<Match> {
    if lines == [] then []
    else
      LineMatches(lines[..|lines| - 1], lower, needle, number) +
      MatchIn(lines[|lines| - 1], lower, needle, number + |lines| - 1)
  }

  /** Whether the scan over the whole text may be used. */
  predicate Fast(content: seq<Byte>, needle: seq<Byte>) {
    IsAscii(content) && IsAscii(needle) && NoBreak(LowerBytes(needle))
  }

  /** What the literal search reports. */
  function LiteralMatches(content: seq<Byte>, needle: seq<Byte>, caseSensitive: bool): seq<Match> {
    if caseSensitive then LineMatches(Lines(content), false, needle, 1)
    else if Fast(content, needle) then MatchesAt(content, Hits(LowerBytes(content), LowerBytes(needle)), |needle|)
    else LineMatches(Lines(content), true, LowerBytes(needle), 1)
  }

  method FindInLines(content: seq<Byte>, lower: bool, needle: seq<Byte>) returns (matches: seq<Match>)
    ensures matches == LineMatches(Lines(content), lower, needle, 1)
  {
    hide Lines, LowerBytes, FirstFrom, At;
    matches := [];
    var lines := Lines(content);
    var k := 0;
    while k < |lines|
      invariant 0 <= k <= |lines| && matches == LineMatches(lines[..k], lower, needle, 1)
    {
      assert lines[..k + 1][..k] == lines[..k];
      var line := lines[k];
      // too short a line is skipped without searching
      if !(lower && |line| < |needle|) {
        var hay := Fold(lower, line);
        var pos := FirstFrom(hay, needle, 0, |hay|);
        if pos.Some? {
          matches := matches + [Match(k + 1, line, pos.value, pos.value + |needle|)];
        }
      }
      k := k + 1;
    }
    assert lines[..k] == lines;
  }

  method FindLiteralMatches(content: seq<Byte>, needle: seq<Byte>, caseSensitive: bool) returns (matches: seq<Match>)
    requires needle != []
    ensures matches == LiteralMatches(content, needle, caseSensitive)
  {
    hide Lines, LineMatches, Hits, MatchesAt, Fold;
    if caseSensitive {
      matches := FindInLines(content, false, needle);
    } else if Fast(content, needle) {
      matches := ScanLiteral(content, needle);
    } else {
      matches := FindInLines(content, true, LowerBytes(needle));
    }
  }

  /** Line number and column of each match. */
  function Located(ms: seq<Match>): (r: seq<(nat, nat)>)
    ensures |r| == |ms| && forall i :: 0 <= i < |ms| ==> r[i] == (ms[i].line, ms[i].start)
  {
    seq(|ms|, i requires 0 <= i < |ms| => (ms[i].line, ms[i].start))
  }

  lemma LocatedHits(c: seq<Byte>, hits: seq<Hit>, length: nat)
    ensures Located(MatchesAt(c, hits, length)) == Places(hits)
  {
  }

  function FoldAll(lower: bool, lines: seq<seq<Byte>>): (r: seq<seq<Byte>>)
    ensures |r| == |lines| && forall i :: 0 <= i < |lines| ==> r[i] == Fold(lower, lines[i])
  {
    seq(|lines|, i requires 0 <= i < |lines| => Fold(lower, lines[i]))
  }

  lemma {:induction false} SearchSnoc(lines: seq<seq<Byte>>, line: seq<Byte>, needle: seq<Byte>, number: nat)
    ensures SearchLines(lines + [line], needle, number) ==
            SearchLines(lines, needle, number) + PlaceIn(line, needle, number + |lines|)
    decreases |lines|
  {
    hide FirstFrom, PlaceIn;
    if lines == [] {
      assert [line] == [line] + [];
      SearchCons(line, [], needle, number);
      assert [] + PlaceIn(line, needle, number) == PlaceIn(line, needle, number) + [];
    } else {
      var rest := lines[1..];
      assert lines == [lines[0]] + rest && lines + [line] == [lines[0]] + (rest + [line]);
      SearchCons(lines[0], rest, needle, number);
      SearchCons(lines[0], rest + [line], needle, number);
      SearchSnoc(rest, line, needle, number + 1);
      hide SearchLines;
    }
  }

  /** The line-by-line report says of each line what a search of it says. */
  lemma {:induction false} LineMatchesAreSearch(lines: seq<seq<Byte>>, lower: bool, needle: seq<Byte>, number: nat)
    ensures Located(LineMatches(lines, lower, needle, number)) == SearchLines(FoldAll(lower, lines), needle, number)
    decreases |lines|
  {
    if lines != [] {
      hide SearchLines, Fold;
      var init, last := lines[..|lines| - 1], lines[|lines| - 1];
      LineMatchesAreSearch(init, lower, needle, number);
      SearchSnoc(FoldAll(lower, init), Fold(lower, last), needle, number);
      assert FoldAll(lower, lines) == FoldAll(lower, init) + [Fold(lower, last)];
      assert Located(MatchIn(last, lower, needle, number + |init|)) ==
             PlaceIn(Fold(lower, last), needle, number + |init|);
      LocatedConcat(LineMatches(init, lower, needle, number), MatchIn(last, lower, needle, number + |init|));
      hide Located, FoldAll, MatchIn, PlaceIn;
    }
  }

  lemma LocatedConcat(a: seq<Match>, b: seq<Match>)
    ensures Located(a + b) == Located(a) + Located(b)
  {
  }

  lemma LowerSlice(c: seq<Byte>, s: nat, t: nat)
    requires s <= t <= |c|
    ensures LowerBytes(c)[s..t] == LowerBytes(c[s..t])
  {
  }

  lemma LowerBreaks(c: seq<Byte>, i: nat)
    requires i < |c|
    ensures LowerBytes(c)[i] == LF <==> c[i] == LF
    ensures LowerBytes(c)[i] == CR <==> c[i] == CR
  {
  }

  lemma SameTrimmed(c: seq<Byte>, s: nat, always: bool)
    requires s <= |c|
    ensures Trimmed(LowerBytes(c), s, always) == Trimmed(c, s, always)
  {
    SameLineEnds(c, s);
    if LineEnd(c, s) > s { LowerBreaks(c, LineEnd(c, s) - 1); }
  }

  lemma FoldCons(line: seq<Byte>, rest: seq<seq<Byte>>)
    ensures FoldAll(true, [line] + rest) == [LowerBytes(line)] + FoldAll(true, rest)
    ensures FoldAll(true, []) == []
  {
  }

  lemma NoLines(c: seq<Byte>)
    ensures LinesFrom(c, |c|) == []
  {
  }

  /** Lowering a text lowers its lines. */
  lemma {:induction false} LowerLines(c: seq<Byte>, s: nat)
    requires s <= |c|
    ensures LinesFrom(LowerBytes(c), s) == FoldAll(true, LinesFrom(c, s))
    decreases |c| - s
  {
    hide *;
    var low := LowerBytes(c);
    FoldCons([], []);
    if s == |c| {
      NoLines(c);
      NoLines(low);
    } else {
      SameLineEnds(c, s);
      SameTrimmed(c, s, false);
      LowerSlice(c, s, Trimmed(c, s, false));
      LinesCons(c, s);
      LinesCons(low, s);
      var line := c[s..Trimmed(c, s, false)];
      if LineEnd(c, s) < |c| {
        LowerLines(c, LineEnd(c, s) + 1);
        FoldCons(line, LinesFrom(c, LineEnd(c, s) + 1));
      } else {
        FoldCons(line, []);
      }
    }
  }

  lemma LowerOneLine(needle: seq<Byte>)
    ensures OneLine(LowerBytes(needle)) <==> OneLine(needle)
    ensures NoBreak(LowerBytes(needle)) <==> NoBreak(needle)
  {
    forall i | 0 <= i < |needle|
      ensures LowerBytes(needle)[i] == LF <==> needle[i] == LF
      ensures LowerBytes(needle)[i] == CR <==> needle[i] == CR
    {
      LowerBreaks(needle, i);
    }
  }

  /**
    The single-pass scan finds what the per-line search finds: the first
    occurrence in every matching line and no other.
  */
  lemma FastIsSimple(content: seq<Byte>, needle: seq<Byte>)
    requires OneLine(needle)
    ensures Located(MatchesAt(content, Hits(LowerBytes(content), LowerBytes(needle)), |needle|))
         == Located(LineMatches(Lines(content), true, LowerBytes(needle), 1))
  {
    LowerOneLine(needle);
    var low, n := LowerBytes(content), LowerBytes(needle);
    hide LowerBytes, LineMatches, SearchLines, LinesFrom, HitsFrom, OneLine, MatchesAt, Located, Places, FoldAll;
    LocatedHits(content, Hits(low, n), |needle|);
    HitsAreSearch(low, n, 0, 1);
    LowerLines(content, 0);
    LineMatchesAreSearch(Lines(content), true, n, 1);
  }

  /** Whatever path the content selects, the report is the per-line search of the lowered lines. */
  lemma LiteralReport(content: seq<Byte>, needle: seq<Byte>, caseSensitive: bool)
    requires needle != []
    ensures Located(LiteralMatches(content, needle, caseSensitive)) ==
            SearchLines(FoldAll(!caseSensitive, Lines(content)), Fold(!caseSensitive, needle), 1)
  {
    hide LineMatches, SearchLines, Lines, Hits, MatchesAt, Located, FoldAll, LowerBytes;
    LowerOneLine(needle);
    if caseSensitive {
      LineMatchesAreSearch(Lines(content), false, needle, 1);
    } else {
      LineMatchesAreSearch(Lines(content), true, LowerBytes(needle), 1);
      if Fast(content, needle) {
        FastIsSimple(content, needle);
      }
    }
  }

  // ----------------------------------------------------------------- proximity

  ghost predicate LineTable(c: seq<Byte>, starts: seq<nat>) {
    && starts != [] && starts[0] == 0
    && (forall k :: 0 <= k < |starts| ==> starts[k] <= |c|)
    && (forall k :: 0 <= k < |starts| - 1 ==> LineEnd(c, starts[k]) < |c| && starts[k + 1] == LineEnd(c, starts[k]) + 1)
    && LineEnd(c, starts[|starts| - 1]) == |c|
  }

  method LineStarts(c: seq<Byte>) returns (starts: seq<nat>)
    ensures LineTable(c, starts)
  {
    starts := [0];
    var nl := LineEnd(c, 0);
    while nl < |c|
      invariant starts != [] && starts[0] == 0
      invariant forall k :: 0 <= k < |starts| ==> starts[k] <= |c|
      invariant forall k :: 0 <= k < |starts| - 1 ==>
                LineEnd(c, starts[k]) < |c| && starts[k + 1] == LineEnd(c, starts[k]) + 1
      invariant nl == LineEnd(c, starts[|starts| - 1])
      decreases |c| - nl
    {
      starts := starts + [nl + 1];
      nl := LineEnd(c, nl + 1);
    }
  }

  /** Lines and columns of hits, as two lists. */
  ghost predicate Lists(lines: seq<nat>, cols: seq<nat>, hits: seq<Hit>) {
    && |lines| == |cols| == |hits|
    && forall i :: 0 <= i < |hits| ==> lines[i] == hits[i].line && cols[i] == hits[i].column
  }

  /** Moves the cursor through the table to the line of `pos`. */
  method Seek(c: seq<Byte>, needle: seq<Byte>, starts: seq<nat>, cursor0: nat, s0: nat, n0: nat,
              ghost done0: bool, ghost from: nat, pos: nat, ghost found: seq<Hit>)
    returns (cursor: nat, lineStart: nat, lineNum: nat, ghost done: bool)
    requires LineTable(c, starts) && OneLine(needle)
    requires cursor0 < |starts| && s0 == starts[cursor0] && n0 == cursor0 + 1
    requires Following(c, needle, s0, n0, done0, from, found)
    requires s0 <= pos && from <= pos < |c| && forall p :: from <= p < pos ==> !At(c, needle, p)
    ensures cursor < |starts| && lineStart == starts[cursor] && lineNum == cursor + 1
    ensures lineStart <= pos <= LineEnd(c, lineStart)
    ensures lineNum >= n0 && done == (done0 && lineNum == n0)
    ensures Following(c, needle, lineStart, lineNum, done, pos, found)
  {
    hide Following, At, OneLine;
    cursor, lineStart, lineNum, done := cursor0, s0, n0, done0;
    ghost var at: nat := from;
    while cursor + 1 < |starts| && starts[cursor + 1] <= pos
      invariant cursor0 <= cursor < |starts| && lineStart == starts[cursor] && lineNum == cursor + 1
      invariant lineStart <= pos && at <= pos && done == (done0 && lineNum == n0)
      invariant Following(c, needle, lineStart, lineNum, done, at, found)
      invariant forall p :: at <= p < pos ==> !At(c, needle, p)
    {
      FollowNextLine(c, needle, lineStart, lineNum, done, at, pos, found);
      at := pos;
      cursor := cursor + 1;
      lineStart, lineNum, done := starts[cursor], cursor + 1, false;
    }
    FollowStays(c, needle, lineStart, lineNum, done, at, pos, found);
  }

  lemma TableStart(c: seq<Byte>, starts: seq<nat>)
    requires LineTable(c, starts)
    ensures |starts| > 0 && starts[0] == 0
  {
  }

  /** Where one term occurs: the lines, each once, and the first column in each. */
  method TermLines(c: seq<Byte>, needle: seq<Byte>, starts: seq<nat>) returns (lines: seq<nat>, cols: seq<nat>)
    requires OneLine(needle) && LineTable(c, starts)
    ensures lines == LinesOf(Hits(c, needle)) && cols == ColumnsOf(Hits(c, needle))
  {
    ghost var found: seq<Hit> := [];
    lines, cols := [], [];
    assert Lists(lines, cols, found) && !IsLast(lines, 1) && NoneBeyond(lines, 1);
    hide *;
    Begins(c, needle);
    NonEmpty(needle);
    TableStart(c, starts);
    var cursor: nat, lineStart: nat, lineNum: nat := 0, 0, 1;
    ghost var done := false;
    var from: nat := 0;
    var next := FirstFrom(c, needle, from, |c|);
    while next.Some?
      invariant from <= |c| && next == FirstFrom(c, needle, from, |c|)
      invariant cursor < |starts| && lineStart == starts[cursor] && lineNum == cursor + 1
      invariant done == IsLast(lines, lineNum) && NoneBeyond(lines, lineNum)
      invariant next.Some? ==> lineStart <= next.value
      invariant Following(c, needle, lineStart, lineNum, done, from, found) && Lists(lines, cols, found)
      decreases |c| - from
    {
      var pos := next.value;
      ghost var was := lineNum;
      cursor, lineStart, lineNum, done := Seek(c, needle, starts, cursor, lineStart, lineNum, done, from, pos, found);
      LaterLine(lines, was, lineNum);
      lines, cols, found := Record(c, needle, lines, cols, lineStart, lineNum, pos, found);
      done := true;
      from := pos + |needle|;
      next := FirstFrom(c, needle, from, |c|);
    }
    Finishes(c, needle, lineStart, lineNum, done, from, found);
    ListsAre(lines, cols, found);
  }

  /** Enters the line of an occurrence, unless it is the last one entered. */
  method Record(c: seq<Byte>, needle: seq<Byte>, lines0: seq<nat>, cols0: seq<nat>, lineStart: nat, lineNum: nat,
      pos: nat, ghost found0: seq<Hit>)
    returns (lines: seq<nat>, cols: seq<nat>, ghost found: seq<Hit>)
    requires Following(c, needle, lineStart, lineNum, IsLast(lines0, lineNum), pos, found0)
    requires Lists(lines0, cols0, found0) && NoneBeyond(lines0, lineNum)
    requires OneLine(needle) && At(c, needle, pos) && lineStart <= pos < |c| && pos <= LineEnd(c, lineStart)
    ensures Following(c, needle, lineStart, lineNum, true, pos + |needle|, found)
    ensures Lists(lines, cols, found) && IsLast(lines, lineNum) && NoneBeyond(lines, lineNum)
  {
    hide *;
    ghost var known := IsLast(lines0, lineNum);
    FollowEither(c, needle, lineStart, lineNum, known, pos, found0);
    RecordEither(lines0, cols0, found0, Hit(lineNum, lineStart, pos - lineStart));
    found := if known then found0 else found0 + [Hit(lineNum, lineStart, pos - lineStart)];
    lines, cols := lines0, cols0;
    if !IsLast(lines, lineNum) {
      lines := lines + [lineNum];
      cols := cols + [pos - lineStart];
    }
  }

  function LinesOf(hits: seq<Hit>): (r: seq<nat>)
    ensures |r| == |hits| && forall i :: 0 <= i < |hits| ==> r[i] == hits[i].line
  {
    seq(|hits|, i requires 0 <= i < |hits| => hits[i].line)
  }

  function ColumnsOf(hits: seq<Hit>): (r: seq<nat>)
    ensures |r| == |hits| && forall i :: 0 <= i < |hits| ==> r[i] == hits[i].column
  {
    seq(|hits|, i requires 0 <= i < |hits| => hits[i].column)
  }

  lemma ListsAre(lines: seq<nat>, cols: seq<nat>, hits: seq<Hit>)
    requires Lists(lines, cols, hits)
    ensures lines == LinesOf(hits) && cols == ColumnsOf(hits)
  {
  }

  /** A line is reported unless it was already. */
  lemma FollowEither(c: seq<Byte>, needle: seq<Byte>, s: nat, number: nat, done: bool, pos: nat, found: seq<Hit>)
    requires Following(c, needle, s, number, done, pos, found) && OneLine(needle) && At(c, needle, pos)
    requires s <= pos < |c| && pos <= LineEnd(c, s)
    ensures var more := if done then found else found + [Hit(number, s, pos - s)];
            Following(c, needle, s, number, true, pos + |needle|, more)
  {
    hide *;
    if done {
      FollowSkips(c, needle, s, number, pos, pos, found);
    } else {
      FollowFinds(c, needle, s, number, pos, pos, found);
    }
  }

  lemma RecordEither(lines: seq<nat>, cols: seq<nat>, found: seq<Hit>, h: Hit)
    requires Lists(lines, cols, found) && NoneBeyond(lines, h.line)
    ensures var known := IsLast(lines, h.line);
            var ls := if known then lines else lines + [h.line];
            && Lists(ls, if known then cols else cols + [h.column], if known then found else found + [h])
            && IsLast(ls, h.line) && NoneBeyond(ls, h.line)
  {
  }

  /** `lines.last() == Some(&n)`. */
  predicate IsLast(lines: seq<nat>, n: nat) {
    lines != [] && lines[|lines| - 1] == n
  }

  predicate NoneBeyond(lines: seq<nat>, n: nat) {
    lines != [] ==> lines[|lines| - 1] <= n
  }

  lemma LaterLine(lines: seq<nat>, m: nat, n: nat)
    requires NoneBeyond(lines, m) && m <= n
    ensures NoneBeyond(lines, n)
    ensures m < n ==> !IsLast(lines, n)
  {
  }

  /** Some line of the term lies within the distance. */
  ghost predicate Within(line: nat, hits: seq<Hit>, distance: nat) {
    exists k :: 0 <= k < |hits| && line <= hits[k].line + distance && hits[k].line <= line + distance
  }

  ghost predicate AllWithin(c: seq<Byte>, line: nat, terms: seq<seq<Byte>>, distance: nat) {
    forall k :: 1 <= k < |terms| ==> Within(line, Hits(c, terms[k]), distance)
  }

  /** The hits of the first term that have every other term near. */
  ghost function NearHits(c: seq<Byte>, hits: seq<Hit>, terms: seq<seq<Byte>>, distance: nat): seq<Hit> {
    if hits == [] then []
    else
      NearHits(c, hits[..|hits| - 1], terms, distance) +
      if AllWithin(c, hits[|hits| - 1].line, terms, distance) then [hits[|hits| - 1]] else []
  }

  /** The report on a hit, with the text of the line as `str::lines` has it. */
  function NearMatch(lines: seq<seq<Byte>>, h: Hit, length: nat): seq<Match> {
    if 1 <= h.line <= |lines| then [Match(h.line, lines[h.line - 1], h.column, h.column + length)] else []
  }

  ghost function NearMatchesOf(lines: seq<seq<Byte>>, hits: seq<Hit>, length: nat): seq<Match> {
    if hits == [] then []
    else NearMatchesOf(lines, hits[..|hits| - 1], length) + NearMatch(lines, hits[|hits| - 1], length)
  }

  function LowerTerms(terms: seq<seq<Byte>>): (r: seq<seq<Byte>>)
    ensures |r| == |terms| && forall k :: 0 <= k < |terms| ==> r[k] == LowerBytes(terms[k])
  {
    seq(|terms|, k requires 0 <= k < |terms| => LowerBytes(terms[k]))
  }

  /** What the proximity search reports. */
  ghost function NearMatches(content: seq<Byte>, terms: seq<seq<Byte>>, distance: nat): seq<Match> {
    var low, ts := LowerBytes(content), LowerTerms(terms);
    if terms == [] || (exists k :: 0 <= k < |ts| && !NoBreak(ts[k])) then []
    else NearMatchesOf(Lines(content), NearHits(low, Hits(low, ts[0]), ts, distance), |terms[0]|)
  }

  ghost predicate AscendFrom(hits: seq<Hit>, number: nat) {
    && (forall i, j :: 0 <= i < j < |hits| ==> hits[i].line < hits[j].line)
    && (forall i :: 0 <= i < |hits| ==> hits[i].line >= number)
  }

  lemma AscendCons(here: seq<Hit>, rest: seq<Hit>, number: nat)
    requires here == [] || (|here| == 1 && here[0].line == number)
    requires AscendFrom(rest, number + 1)
    ensures AscendFrom(here + rest, number)
  {
  }

  lemma {:induction false} HitsAscend(c: seq<Byte>, needle: seq<Byte>, s: nat, number: nat)
    requires s <= |c|
    ensures AscendFrom(HitsFrom(c, needle, s, number), number)
    decreases |c| - s
  {
    assert AscendFrom([], number) && AscendFrom([], number + 1);
    hide *;
    NoHitsAtEnd(c, needle, s, number);
    if s < |c| {
      HitsCons(c, needle, s, number);
      HitInIs(c, needle, s, number);
      if LineEnd(c, s) < |c| {
        HitsAscend(c, needle, LineEnd(c, s) + 1, number + 1);
        AscendCons(HitIn(c, needle, s, number), HitsFrom(c, needle, LineEnd(c, s) + 1, number + 1), number);
      } else {
        AscendCons(HitIn(c, needle, s, number), [], number);
      }
    }
  }

  /** Index of the first element that is at least `lo`: `partition_point` on a sorted list. */
  function PartitionPoint(s: seq<nat>, lo: nat): (i: nat)
    ensures i <= |s| && (i < |s| ==> s[i] >= lo)
    ensures forall j :: 0 <= j < i ==> s[j] < lo
  {
    if s == [] then 0
    else
      var i := PartitionPoint(s[..|s| - 1], lo);
      if i < |s| - 1 || s[|s| - 1] >= lo then i else |s|
  }

  method HasLineNear(lines: seq<nat>, line: nat, distance: nat, ghost hits: seq<Hit>) returns (near: bool)
    requires lines == LinesOf(hits) && Ascending(lines)
    ensures near <==> Within(line, hits, distance)
  {
    var lo := if line > distance then line - distance else 0;
    var hi := line + distance;
    var i := PartitionPoint(lines, lo);
    near := i < |lines| && lines[i] <= hi;
    if near {
      assert hits[i].line == lines[i];
    } else {
      forall k | 0 <= k < |hits|
        ensures !(line <= hits[k].line + distance && hits[k].line <= line + distance)
      {
        assert hits[k].line == lines[k];
        if i < k { assert lines[i] < lines[k]; }
      }
    }
  }

  lemma LinesAscend(c: seq<Byte>, needle: seq<Byte>)
    ensures Ascending(LinesOf(Hits(c, needle)))
  {
    HitsAscend(c, needle, 0, 1);
    hide HitsFrom;
  }

  /** The line lists of the first `n` terms. */
  ghost predicate TermTable(c: seq<Byte>, terms: seq<seq<Byte>>, termLines: seq<seq<nat>>) {
    && |termLines| <= |terms|
    && forall k :: 0 <= k < |termLines| ==> termLines[k] == LinesOf(Hits(c, terms[k]))
  }

  method EveryTermNear(c: seq<Byte>, terms: seq<seq<Byte>>, termLines: seq<seq<nat>>, line: nat, distance: nat)
      returns (near: bool)
    requires terms != [] && TermTable(c, terms, termLines) && |termLines| == |terms|
    ensures near <==> AllWithin(c, line, terms, distance)
  {
    hide Hits, LinesOf, Within;
    var k := 1;
    while k < |terms|
      invariant 1 <= k <= |terms|
      invariant forall j :: 1 <= j < k ==> Within(line, Hits(c, terms[j]), distance)
    {
      LinesAscend(c, terms[k]);
      near := HasLineNear(termLines[k], line, distance, Hits(c, terms[k]));
      if !near {
        return;
      }
      k := k + 1;
    }
    near := true;
  }

  lemma NearMatchesSnoc(lines: seq<seq<Byte>>, hits: seq<Hit>, h: Hit, length: nat)
    ensures NearMatchesOf(lines, hits + [h], length) == NearMatchesOf(lines, hits, length) + NearMatch(lines, h, length)
  {
    assert (hits + [h])[..|hits|] == hits;
  }

  /** A term that occurs nowhere leaves nothing near it. */
  lemma {:induction false} MissingTerm(c: seq<Byte>, hits: seq<Hit>, terms: seq<seq<Byte>>, distance: nat, k: nat)
    requires 1 <= k < |terms| && Hits(c, terms[k]) == []
    ensures NearHits(c, hits, terms, distance) == []
    decreases |hits|
  {
    if hits != [] {
      MissingTerm(c, hits[..|hits| - 1], terms, distance, k);
      hide Hits;
      assert !Within(hits[|hits| - 1].line, Hits(c, terms[k]), distance);
    }
  }

  lemma NearHitsSnoc(c: seq<Byte>, hits: seq<Hit>, i: nat, terms: seq<seq<Byte>>, distance: nat)
    requires i < |hits|
    ensures NearHits(c, hits[..i + 1], terms, distance) ==
            var before := NearHits(c, hits[..i], terms, distance);
            if AllWithin(c, hits[i].line, terms, distance) then before + [hits[i]] else before
  {
    assert hits[..i + 1][..i] == hits[..i];
    assert NearHits(c, hits[..i], terms, distance) + [] == NearHits(c, hits[..i], terms, distance);
    hide AllWithin;
  }

  /** Line and column lists of every term; fewer lists than terms when one occurs nowhere. */
  method LocateTerms(c: seq<Byte>, terms: seq<seq<Byte>>) returns (termLines: seq<seq<nat>>, firstCols: seq<nat>)
    requires terms != [] && forall k :: 0 <= k < |terms| ==> OneLine(terms[k])
    ensures TermTable(c, terms, termLines)
    ensures |termLines| < |terms| ==> Hits(c, terms[|termLines|]) == []
    ensures |termLines| > 0 ==> firstCols == ColumnsOf(Hits(c, terms[0]))
  {
    hide Hits, OneLine, LineTable;
    termLines, firstCols := [], [];
    var starts := LineStarts(c);
    while |termLines| < |terms|
      invariant TermTable(c, terms, termLines)
      invariant |termLines| > 0 ==> firstCols == ColumnsOf(Hits(c, terms[0]))
      decreases |terms| - |termLines|
    {
      var lines, cols := TermLines(c, terms[|termLines|], starts);
      if lines == [] {
        return;
      }
      if termLines == [] {
        firstCols := cols;
      }
      termLines := termLines + [lines];
    }
  }

  method CollectNear(content: seq<Byte>, low: seq<Byte>, terms: seq<seq<Byte>>, termLines: seq<seq<nat>>,
      firstCols: seq<nat>, length: nat, distance: nat)
    returns (matches: seq<Match>)
    requires terms != [] && TermTable(low, terms, termLines) && |termLines| == |terms|
    requires firstCols == ColumnsOf(Hits(low, terms[0]))
    ensures matches == NearMatchesOf(Lines(content), NearHits(low, Hits(low, terms[0]), terms, distance), length)
  {
    hide Hits, LinesFrom, AllWithin;
    var lines := Lines(content);
    ghost var hits := Hits(low, terms[0]);
    matches := [];
    var i := 0;
    while i < |termLines[0]|
      invariant 0 <= i <= |termLines[0]| == |hits|
      invariant matches == NearMatchesOf(lines, NearHits(low, hits[..i], terms, distance), length)
    {
      var line := termLines[0][i];
      assert line == hits[i].line && firstCols[i] == hits[i].column;
      NearHitsSnoc(low, hits, i, terms, distance);
      var near := EveryTermNear(low, terms, termLines, line, distance);
      if near {
        NearMatchesSnoc(lines, NearHits(low, hits[..i], terms, distance), hits[i], length);
        if line >= 1 && line - 1 < |lines| {
          matches := matches + [Match(line, lines[line - 1], firstCols[i], firstCols[i] + length)];
        }
      }
      i := i + 1;
    }
    assert hits[..i] == hits;
  }

  method FindProximityMatches(content: seq<Byte>, terms: seq<seq<Byte>>, distance: nat) returns (matches: seq<Match>)
    requires forall k :: 0 <= k < |terms| ==> terms[k] != []
    ensures matches == NearMatches(content, terms, distance)
  {
    if terms == [] {
      return [];
    }
    var low, ts := LowerBytes(content), LowerTerms(terms);
    if k :| 0 <= k < |ts| && !NoBreak(ts[k]) {
      return [];
    }
    assert forall k :: 0 <= k < |ts| ==> OneLine(ts[k]);
    hide Hits, LowerBytes, LinesFrom, OneLine, TermTable;
    var termLines, firstCols := LocateTerms(low, ts);
    if |termLines| < |ts| {
      NothingNear(low, ts, distance, |termLines|);
      return [];
    }
    TableSize(low, ts, termLines);
    matches := CollectNear(content, low, ts, termLines, firstCols, |terms[0]|, distance);
  }

  lemma TableSize(c: seq<Byte>, terms: seq<seq<Byte>>, termLines: seq<seq<nat>>)
    requires TermTable(c, terms, termLines)
    ensures |termLines| <= |terms|
  {
  }

  lemma NothingNear(c: seq<Byte>, terms: seq<seq<Byte>>, distance: nat, k: nat)
    requires k < |terms| && Hits(c, terms[k]) == []
    ensures NearHits(c, Hits(c, terms[0]), terms, distance) == []
  {
    if k > 0 {
      MissingTerm(c, Hits(c, terms[0]), terms, distance, k);
    }
  }

  /** The proximity report is exactly the hits of the first term that have every other term near. */
  lemma {:induction false} NearHitsAre(c: seq<Byte>, hits: seq<Hit>, terms: seq<seq<Byte>>, distance: nat, h: Hit)
    ensures h in NearHits(c, hits, terms, distance) <==> h in hits && AllWithin(c, h.line, terms, distance)
    decreases |hits|
  {
    if hits != [] {
      hide AllWithin;
      var init := hits[..|hits| - 1];
      assert hits == init + [hits[|hits| - 1]];
      NearHitsAre(c, init, terms, distance, h);
    }
  }

  // -------------------------------------------------------- verification trees

  function Children(v: VerificationStep): seq<VerificationStep> {
    match v
    case And(steps) => steps
    case Or(steps) => steps
    case _ => []
  }

  function Utf8All(terms: seq<string>): (r: seq<seq<Byte>>)
    ensures |r| == |terms| && forall k :: 0 <= k < |terms| ==> r[k] == Utf8(terms[k])
  {
    seq(|terms|, k requires 0 <= k < |terms| => Utf8(terms[k]))
  }

  /** No text to look for is empty. */
  predicate NonEmptyTexts(v: VerificationStep) {
    match v
    case Literal(text) => text != ""
    case BoostedLiteral(text, _) => text != ""
    case Phrase(text, _) => text != ""
    case Regex(_) => true
    case Near(terms, _) => forall k :: 0 <= k < |terms| ==> terms[k] != ""
    case And(steps) => forall k :: 0 <= k < |steps| ==> NonEmptyTexts(steps[k])
    case Or(steps) => forall k :: 0 <= k < |steps| ==> NonEmptyTexts(steps[k])
    case Not(inner) => NonEmptyTexts(inner)
  }

  lemma Utf8NonEmpty(text: string)
    requires text != ""
    ensures Utf8(text) != []
  {
  }

  /** The matches of a tree: of all its parts for And, of any for Or, one on line 1 for a Not that holds. */
  ghost function VerifyMatches(content: seq<Byte>, v: VerificationStep, engine: Engine): seq<Match>
    decreases v, |Children(v)| + 1
  {
    match v
    case Literal(text) => LiteralMatches(content, Utf8(text), false)
    case BoostedLiteral(text, _) => LiteralMatches(content, Utf8(text), false)
    case Phrase(text, caseInsensitive) => LiteralMatches(content, Utf8(text), !caseInsensitive)
    case Regex(pattern) => engine.matches(pattern, content)
    case Near(terms, distance) => NearMatches(content, Utf8All(terms), distance)
    case And(steps) =>
      if exists k :: 0 <= k < |steps| && VerifyMatches(content, steps[k], engine) == [] then []
      else MatchesOfFirst(content, v, |steps|, engine)
    case Or(steps) => MatchesOfFirst(content, v, |steps|, engine)
    case Not(inner) =>
      if VerifyMatches(content, inner, engine) == []
      then [Match(1, if Lines(content) == [] then [] else Lines(content)[0], 0, 0)]
      else []
  }

  ghost function MatchesOfFirst(content: seq<Byte>, v: VerificationStep, n: nat, engine: Engine): seq<Match>
    requires n <= |Children(v)|
    decreases v, n
  {
    if n == 0 then []
    else MatchesOfFirst(content, v, n - 1, engine) + VerifyMatches(content, Children(v)[n - 1], engine)
  }

  method VerifyContent(content: seq<Byte>, v: VerificationStep, engine: Engine) returns (matches: seq<Match>)
    requires NonEmptyTexts(v)
    ensures matches == VerifyMatches(content, v, engine)
    decreases v
  {
    hide LiteralMatches, NearMatches, LinesFrom, Utf8;
    match v {
      case Literal(text) =>
        Utf8NonEmpty(text);
        matches := FindLiteralMatches(content, Utf8(text), false);
      case BoostedLiteral(text, _) =>
        Utf8NonEmpty(text);
        matches := FindLiteralMatches(content, Utf8(text), false);
      case Phrase(text, caseInsensitive) =>
        Utf8NonEmpty(text);
        matches := FindLiteralMatches(content, Utf8(text), !caseInsensitive);
      case Regex(pattern) => matches := engine.matches(pattern, content);
      case Near(terms, distance) =>
        forall k | 0 <= k < |terms| ensures Utf8(terms[k]) != [] { Utf8NonEmpty(terms[k]); }
        matches := FindProximityMatches(content, Utf8All(terms), distance);
      case And(steps) => matches := VerifyAnd(content, v, engine);
      case Or(steps) =>
        matches := [];
        var k := 0;
        while k < |steps|
          invariant 0 <= k <= |steps| && matches == MatchesOfFirst(content, v, k, engine)
        {
          var more := VerifyContent(content, steps[k], engine);
          matches := matches + more;
          k := k + 1;
        }
      case Not(inner) =>
        var innerMatches := VerifyContent(content, inner, engine);
        if innerMatches == [] {
          matches := [Match(1, if Lines(content) == [] then [] else Lines(content)[0], 0, 0)];
        } else {
          matches := [];
        }
    }
  }

  /** All must have at least one match. */
  method VerifyAnd(content: seq<Byte>, v: VerificationStep, engine: Engine) returns (matches: seq<Match>)
    requires v.And? && NonEmptyTexts(v)
    ensures matches == VerifyMatches(content, v, engine)
    decreases v, 0
  {
    hide LiteralMatches, NearMatches, LinesFrom, Utf8, Utf8All;
    matches := [];
    var k := 0;
    while k < |v.steps|
      invariant 0 <= k <= |v.steps| && matches == MatchesOfFirst(content, v, k, engine)
      invariant forall j :: 0 <= j < k ==> VerifyMatches(content, v.steps[j], engine) != []
    {
      var more := VerifyContent(content, v.steps[k], engine);
      if more == [] {
        return [];
      }
      matches := matches + more;
      k := k + 1;
    }
  }

  // ---------------------------------------------------------- the early-exit form

  predicate AnyLine(lines: seq<seq<Byte>>, needle: seq<Byte>) {
    exists k :: 0 <= k < |lines| && FirstFrom(LowerBytes(lines[k]), needle, 0, |lines[k]|).Some?
  }

  /** `has_literal_match`: one search over the whole lowered text, or over its lines. */
  predicate HasLiteral(content: seq<Byte>, needle: seq<Byte>) {
    if Fast(content, needle) then FirstFrom(LowerBytes(content), LowerBytes(needle), 0, |content|).Some?
    else AnyLine(Lines(content), LowerBytes(needle))
  }

  /** Whether the content has any match. */
  ghost predicate HasMatch(content: seq<Byte>, v: VerificationStep, engine: Engine) {
    match v
    case Literal(text) => HasLiteral(content, Utf8(text))
    case BoostedLiteral(text, _) => HasLiteral(content, Utf8(text))
    case Phrase(text, caseInsensitive) =>
      if caseInsensitive then HasLiteral(content, Utf8(text)) else FirstFrom(content, Utf8(text), 0, |content|).Some?
    case Regex(pattern) => engine.isMatch(pattern, content)
    case And(steps) => forall k :: 0 <= k < |steps| ==> HasMatch(content, steps[k], engine)
    case Or(steps) => exists k :: 0 <= k < |steps| && HasMatch(content, steps[k], engine)
    case Not(inner) => !HasMatch(content, inner, engine)
    case Near(terms, distance) => NearMatches(content, Utf8All(terms), distance) != []
  }

  /** `has_match`, with its early exits. */
  method FindAny(content: seq<Byte>, v: VerificationStep, engine: Engine) returns (found: bool)
    requires NonEmptyTexts(v)
    ensures found <==> HasMatch(content, v, engine)
    decreases v
  {
    hide HasLiteral, NearMatches, Utf8, FirstFrom;
    match v {
      case Literal(text) => found := HasLiteral(content, Utf8(text));
      case BoostedLiteral(text, _) => found := HasLiteral(content, Utf8(text));
      case Phrase(text, caseInsensitive) =>
        if caseInsensitive {
          found := HasLiteral(content, Utf8(text));
        } else {
          found := FirstFrom(content, Utf8(text), 0, |content|).Some?;
        }
      case Regex(pattern) => found := engine.isMatch(pattern, content);
      case And(steps) =>
        var k := 0;
        while k < |steps|
          invariant 0 <= k <= |steps| && forall j :: 0 <= j < k ==> HasMatch(content, steps[j], engine)
        {
          var one := FindAny(content, steps[k], engine);
          if !one {
            return false;
          }
          k := k + 1;
        }
        found := true;
      case Or(steps) =>
        var k := 0;
        while k < |steps|
          invariant 0 <= k <= |steps| && forall j :: 0 <= j < k ==> !HasMatch(content, steps[j], engine)
        {
          var one := FindAny(content, steps[k], engine);
          if one {
            return true;
          }
          k := k + 1;
        }
        found := false;
      case Not(inner) =>
        var one := FindAny(content, inner, engine);
        found := !one;
      case Near(terms, distance) =>
        forall k | 0 <= k < |terms| ensures Utf8(terms[k]) != [] { Utf8NonEmpty(terms[k]); }
        var matches := FindProximityMatches(content, Utf8All(terms), distance);
        found := matches != [];
    }
  }

  /**
    Where the two forms can be compared: texts are not empty, exact phrases are
    such as a line can hold, every And has a part, and a regex matches the text when it
    matches one of its lines.
  */
  ghost predicate Comparable(content: seq<Byte>, v: VerificationStep, engine: Engine) {
    match v
    case Literal(text) => text != ""
    case BoostedLiteral(text, _) => text != ""
    case Phrase(text, caseInsensitive) => text != "" && (caseInsensitive || OneLine(Utf8(text)))
    case Regex(pattern) => engine.isMatch(pattern, content) <==> engine.matches(pattern, content) != []
    case And(steps) => steps != [] && forall k :: 0 <= k < |steps| ==> Comparable(content, steps[k], engine)
    case Or(steps) => forall k :: 0 <= k < |steps| ==> Comparable(content, steps[k], engine)
    case Not(inner) => Comparable(content, inner, engine)
    case Near(_, _) => true
  }

  lemma HitHere(c: seq<Byte>, needle: seq<Byte>, s: nat, number: nat, p: nat)
    requires s <= p <= |c| && At(c, needle, p) && p + |needle| <= LineEnd(c, s)
    ensures HitIn(c, needle, s, number) != []
  {
    hide At;
  }

  /** Some line has the needle exactly when the text has it. */
  lemma {:induction false} NoHitsNoOccurrence(c: seq<Byte>, needle: seq<Byte>, s: nat, number: nat, p: nat)
    requires s <= |c| && OneLine(needle) && s <= p <= |c| && At(c, needle, p)
    ensures HitsFrom(c, needle, s, number) != []
    decreases |c| - s
  {
    NonEmpty(needle);
    NotAtEnd(c, needle, p);
    hide *;
    HitsCons(c, needle, s, number);
    if p <= LineEnd(c, s) {
      EndsInLine(c, needle, s, p);
      HitHere(c, needle, s, number, p);
    } else {
      NoHitsNoOccurrence(c, needle, LineEnd(c, s) + 1, number + 1, p);
    }
  }

  lemma NotAtEnd(c: seq<Byte>, needle: seq<Byte>, p: nat)
    requires needle != [] && At(c, needle, p)
    ensures p < |c|
  {
  }

  lemma {:induction false} HitOccurs(c: seq<Byte>, needle: seq<Byte>, s: nat, number: nat)
    requires s <= |c| && HitsFrom(c, needle, s, number) != []
    ensures exists p :: 0 <= p <= |c| && At(c, needle, p)
    decreases |c| - s
  {
    if s < |c| {
      var p := FirstFrom(c, needle, s, LineEnd(c, s));
      if p.None? {
        HitOccurs(c, needle, LineEnd(c, s) + 1, number + 1);
      }
    }
  }

  lemma HitsIffContains(c: seq<Byte>, needle: seq<Byte>)
    requires OneLine(needle)
    ensures Hits(c, needle) != [] <==> FirstFrom(c, needle, 0, |c|).Some?
    ensures Hits(c, needle) != [] <==> Contains(c, needle)
  {
    if Hits(c, needle) != [] {
      HitOccurs(c, needle, 0, 1);
    }
    if p :| 0 <= p <= |c| && At(c, needle, p) {
      NoHitsNoOccurrence(c, needle, 0, 1, p);
    }
    hide HitsFrom;
  }

  lemma {:induction false} SearchFindsLine(lines: seq<seq<Byte>>, needle: seq<Byte>, number: nat)
    ensures SearchLines(lines, needle, number) != [] <==>
            exists k :: 0 <= k < |lines| && FirstFrom(lines[k], needle, 0, |lines[k]|).Some?
    decreases |lines|
  {
    if lines != [] {
      SearchFindsLine(lines[1..], needle, number + 1);
      hide FirstFrom;
      if k :| 0 <= k < |lines| && FirstFrom(lines[k], needle, 0, |lines[k]|).Some? {
        if k > 0 { assert lines[1..][k - 1] == lines[k]; }
      }
    }
  }

  lemma LiteralAgrees(content: seq<Byte>, needle: seq<Byte>)
    requires needle != []
    ensures HasLiteral(content, needle) <==> LiteralMatches(content, needle, false) != []
  {
    LiteralReport(content, needle, false);
    var low, n := LowerBytes(content), LowerBytes(needle);
    if Fast(content, needle) {
      LowerOneLine(needle);
      assert OneLine(n);
      hide Hits, FirstFrom, LineMatches, OneLine;
      HitsIffContains(low, n);
    } else {
      hide FirstFrom, LineMatches, LinesFrom, SearchLines, LowerBytes;
      SearchFindsLine(FoldAll(true, Lines(content)), n, 1);
      FoldedLines(Lines(content), n);
    }
  }

  lemma FoldedLines(lines: seq<seq<Byte>>, needle: seq<Byte>)
    ensures AnyLine(lines, needle) <==>
            exists k :: 0 <= k < |lines|
              && FirstFrom(FoldAll(true, lines)[k], needle, 0, |FoldAll(true, lines)[k]|).Some?
  {
    hide FirstFrom;
    assert forall k :: 0 <= k < |lines| ==>
           FoldAll(true, lines)[k] == LowerBytes(lines[k]) && |LowerBytes(lines[k])| == |lines[k]|;
    hide LowerBytes;
  }

  lemma ExactAgrees(content: seq<Byte>, needle: seq<Byte>)
    requires OneLine(needle)
    ensures FirstFrom(content, needle, 0, |content|).Some? <==> LiteralMatches(content, needle, true) != []
  {
    LiteralReport(content, needle, true);
    hide FirstFrom, LineMatches, SearchLines, Hits;
    assert FoldAll(false, Lines(content)) == Lines(content);
    HitsAreSearch(content, needle, 0, 1);
    HitsIffContains(content, needle);
  }

  lemma {:induction false} SomeOfFirst(content: seq<Byte>, v: VerificationStep, n: nat, engine: Engine)
    requires n <= |Children(v)|
    ensures MatchesOfFirst(content, v, n, engine) != [] <==>
            exists k :: 0 <= k < n && VerifyMatches(content, Children(v)[k], engine) != []
    decreases n
  {
    hide VerifyMatches;
    if n > 0 {
      SomeOfFirst(content, v, n - 1, engine);
    }
  }

  /** The early-exit form is true exactly when the full form returns a match. */
  lemma {:induction false} FormsAgree(content: seq<Byte>, v: VerificationStep, engine: Engine)
    requires Comparable(content, v, engine)
    ensures HasMatch(content, v, engine) <==> VerifyMatches(content, v, engine) != []
    decreases v
  {
    hide HasLiteral, LiteralMatches, NearMatches, FirstFrom, Utf8, LinesFrom;
    match v {
      case Literal(text) =>
        Utf8NonEmpty(text);
        LiteralAgrees(content, Utf8(text));
      case BoostedLiteral(text, _) =>
        Utf8NonEmpty(text);
        LiteralAgrees(content, Utf8(text));
      case Phrase(text, caseInsensitive) =>
        Utf8NonEmpty(text);
        if caseInsensitive { LiteralAgrees(content, Utf8(text)); } else { ExactAgrees(content, Utf8(text)); }
      case Regex(_) =>
      case Near(_, _) =>
      case And(steps) => PartsAgree(content, v, engine);
      case Or(steps) => PartsAgree(content, v, engine);
      case Not(inner) => FormsAgree(content, inner, engine);
    }
  }

  lemma {:induction false} PartsAgree(content: seq<Byte>, v: VerificationStep, engine: Engine)
    requires (v.And? || v.Or?) && Comparable(content, v, engine)
    ensures HasMatch(content, v, engine) <==> VerifyMatches(content, v, engine) != []
    decreases v, 0
  {
    forall k | 0 <= k < |Children(v)|
      ensures HasMatch(content, Children(v)[k], engine) <==> VerifyMatches(content, Children(v)[k], engine) != []
    {
      FormsAgree(content, Children(v)[k], engine);
    }
    SomeOfFirst(content, v, |Children(v)|, engine);
    hide MatchesOfFirst;
  }

  // ------------------------------------------------------- exact phrases, exactly

  /** The two forms agree on an exact phrase, whatever the content. */
  ghost predicate AgreesOn(text: string, engine: Engine) {
    forall content: seq<Byte> :: HasMatch(content, Phrase(text, false), engine) <==>
      VerifyMatches(content, Phrase(text, false), engine) != []
  }

  lemma {:induction false} LinesHaveNoFeed(c: seq<Byte>, s: nat)
    requires s <= |c|
    ensures forall line :: line in LinesFrom(c, s) ==> LF !in line
    decreases |c| - s
  {
    if s < |c| {
      LinesCons(c, s);
      if LineEnd(c, s) < |c| {
        LinesHaveNoFeed(c, LineEnd(c, s) + 1);
      }
      hide LinesFrom;
    }
  }

  /** A needle with a line feed stands in no line. */
  lemma FeedInNoLine(c: seq<Byte>, needle: seq<Byte>, line: seq<Byte>)
    requires LF in needle && line in Lines(c)
    ensures FirstFrom(line, needle, 0, |line|).None?
  {
    LinesHaveNoFeed(c, 0);
    var p := FirstFrom(line, needle, 0, |line|);
    if p.Some? {
      PartOf(line, needle, p.value, LF);
    }
  }

  lemma PartOf(hay: seq<Byte>, needle: seq<Byte>, p: nat, b: Byte)
    requires At(hay, needle, p)
    ensures b in needle ==> b in hay
  {
    if b in needle {
      var k :| 0 <= k < |needle| && needle[k] == b;
      assert hay[p..p + |needle|][k] == hay[p + k];
    }
  }

  /** A needle that ends in a carriage return is cut short by the line feed after it. */
  lemma ReturnIsTrimmed(needle: seq<Byte>)
    requires needle != [] && LF !in needle && needle[|needle| - 1] == CR
    ensures Lines(needle + [LF]) == [needle[..|needle| - 1]]
  {
    var c, n := needle + [LF], |needle|;
    LineEndAt(c, 0, n);
    LinesCons(c, 0);
    assert Trimmed(c, 0, false) == n - 1;
    assert LinesFrom(c, n + 1) == [];
    hide LinesFrom, LineEnd;
    assert c[0..n - 1] == needle[..n - 1];
    assert [needle[..n - 1]] + [] == [needle[..n - 1]];
  }

  lemma {:induction false} LineEndAt(c: seq<Byte>, s: nat, e: nat)
    requires s <= e < |c| && c[e] == LF && forall i :: s <= i < e ==> c[i] != LF
    ensures LineEnd(c, s) == e
    decreases e - s
  {
    if s < e {
      LineEndAt(c, s + 1, e);
    }
  }

  lemma TooShort(line: seq<Byte>, needle: seq<Byte>)
    requires |line| < |needle|
    ensures FirstFrom(line, needle, 0, |line|).None?
  {
  }

  /** No line of the needle, followed by a line feed, holds the needle itself. */
  lemma NoLineHoldsIt(needle: seq<Byte>, line: seq<Byte>)
    requires needle != [] && !OneLine(needle) && line in Lines(needle + [LF])
    ensures FirstFrom(line, needle, 0, |line|).None?
  {
    if LF in needle {
      FeedInNoLine(needle + [LF], needle, line);
    } else {
      ReturnIsTrimmed(needle);
      TooShort(line, needle);
    }
  }

  /** A text whose lines all lack the needle yields no match. */
  lemma NoLineNoMatch(content: seq<Byte>, needle: seq<Byte>)
    requires needle != [] && forall line :: line in Lines(content) ==> FirstFrom(line, needle, 0, |line|).None?
    ensures LiteralMatches(content, needle, true) == []
  {
    LiteralReport(content, needle, true);
    hide FirstFrom, LineMatches, SearchLines, LinesFrom;
    assert FoldAll(false, Lines(content)) == Lines(content);
    SearchFindsLine(Lines(content), needle, 1);
  }

  lemma FoundInFront(needle: seq<Byte>, more: seq<Byte>)
    ensures FirstFrom(needle + more, needle, 0, |needle + more|).Some?
  {
    assert (needle + more)[0..|needle|] == needle;
    assert At(needle + more, needle, 0);
  }

  /**
    The forms agree on an exact phrase, on every content, if and only if a line
    can hold it: it has no line feed and does not end in a carriage return.
  */
  lemma PhraseAgreesIff(text: string, engine: Engine)
    requires text != ""
    ensures AgreesOn(text, engine) <==> OneLine(Utf8(text))
  {
    var needle := Utf8(text);
    Utf8NonEmpty(text);
    hide Utf8, FirstFrom, LiteralMatches, OneLine, LinesFrom;
    if OneLine(needle) {
      forall content: seq<Byte>
        ensures HasMatch(content, Phrase(text, false), engine) <==>
                VerifyMatches(content, Phrase(text, false), engine) != []
      {
        ExactAgrees(content, needle);
      }
    } else {
      var content := needle + [LF];
      FoundInFront(needle, [LF]);
      forall line | line in Lines(content)
        ensures FirstFrom(line, needle, 0, |line|).None?
      {
        NoLineHoldsIt(needle, line);
      }
      NoLineNoMatch(content, needle);
      assert HasMatch(content, Phrase(text, false), engine)
             && VerifyMatches(content, Phrase(text, false), engine) == [];
    }
  }
}
