/**
  Which matches are reported (src/query/executor.rs:1194-1480), told by the lines
  of the file: where each text to look for stands, and how And, Or and Not
  collect them.
*/
module Matches {
  import opened Prelude
  import opened Text
  import opened Scanner
  import opened Verify
  import opened QueryTree
  import opened Planner

  // ------------------------------------------------------------------ in a line

  /** The first occurrence in a line. */
  ghost predicate FirstIn(line: seq<Byte>, needle: seq<Byte>, column: nat) {
    At(line, needle, column) && forall q: nat :: q < column ==> !At(line, needle, q)
  }

  /** The text stands on the line of this number, first at this column; in any case, or exactly as written. */
  ghost predicate On(content: seq<Byte>, needle: seq<Byte>, exact: bool, line: nat, column: nat) {
    && 1 <= line <= |Lines(content)|
    && if exact then FirstIn(Lines(content)[line - 1], needle, column)
       else FirstIn(LowerBytes(Lines(content)[line - 1]), LowerBytes(needle), column)
  }

  /** The last line, of a file that ends in a carriage return. */
  predicate EndsBare(content: seq<Byte>, line: nat) {
    line == |Lines(content)| && content != [] && content[|content| - 1] == CR
  }

  predicate PlainAscii(content: seq<Byte>, needle: seq<Byte>) {
    IsAscii(content) && IsAscii(needle) && LF !in needle && CR !in needle
  }

  /** The match of a text: its place, its span, and the line; the bare carriage return at the end may be cut off. */
  ghost predicate TextFinds(content: seq<Byte>, needle: seq<Byte>, exact: bool, m: Match) {
    && On(content, needle, exact, m.line, m.start)
    && m.end == m.start + |needle|
    && var line := Lines(content)[m.line - 1];
       m.text == if !exact && PlainAscii(content, needle) && EndsBare(content, m.line) && line != []
                 then line[..|line| - 1] else line
  }

  /** The match of several texts near each other: that of the first. */
  ghost predicate NearFinds(content: seq<Byte>, terms: seq<seq<Byte>>, distance: nat, m: Match) {
    && terms != [] && (forall k :: 0 <= k < |terms| ==> LF !in terms[k] && CR !in terms[k])
    && On(content, terms[0], false, m.line, m.start)
    && m.end == m.start + |terms[0]| && m.text == Lines(content)[m.line - 1]
    && forall k :: 1 <= k < |terms| ==> SomewhereNear(content, terms[k], m.line, distance)
  }

  ghost predicate SomewhereNear(content: seq<Byte>, term: seq<Byte>, line: nat, distance: nat) {
    exists l: nat, c: nat :: On(content, term, false, l, c) && l <= line + distance && line <= l + distance
  }

  lemma FirstFromIs(hay: seq<Byte>, needle: seq<Byte>, p: nat)
    ensures FirstFrom(hay, needle, 0, |hay|) == Some(p) <==> FirstIn(hay, needle, p)
  {
    var r := FirstFrom(hay, needle, 0, |hay|);
    hide FirstFrom;
    assert FirstIn(hay, needle, p) ==> p + |needle| <= |hay|;
    if FirstIn(hay, needle, p) && r.Some? {
      assert !(r.value < p) && !(p < r.value);
    }
  }

  // ------------------------------------------------------------- line by line

  lemma LineMatchesSnoc(init: seq<seq<Byte>>, last: seq<Byte>, lower: bool, needle: seq<Byte>, number: nat, m: Match)
    ensures m in LineMatches(init + [last], lower, needle, number) <==>
            || m in LineMatches(init, lower, needle, number)
            || (m.line == number + |init| && FirstIn(Fold(lower, last), needle, m.start)
                && m.end == m.start + |needle| && m.text == last)
  {
    FirstFromIs(Fold(lower, last), needle, m.start);
    hide FirstFrom, FirstIn, Fold;
    assert (init + [last])[..|init|] == init;
  }

  lemma {:induction false} InLineMatches(lines: seq<seq<Byte>>, lower: bool, needle: seq<Byte>, number: nat, m: Match)
    ensures m in LineMatches(lines, lower, needle, number) <==>
            && number <= m.line < number + |lines|
            && FirstIn(Fold(lower, lines[m.line - number]), needle, m.start)
            && m.end == m.start + |needle| && m.text == lines[m.line - number]
    decreases |lines|
  {
    if lines != [] {
      hide *;
      var init, last := lines[..|lines| - 1], lines[|lines| - 1];
      InLineMatches(init, lower, needle, number, m);
      LineMatchesSnoc(init, last, lower, needle, number, m);
      assert lines == init + [last];
      assert |init| <= m.line - number < |lines| ==> lines[m.line - number] == last;
    }
  }

  lemma SearchLinesCons(first: seq<Byte>, rest: seq<seq<Byte>>, needle: seq<Byte>, number: nat, line: nat, column: nat)
    ensures (line, column) in SearchLines([first] + rest, needle, number) <==>
            || (line == number && FirstIn(first, needle, column))
            || (line, column) in SearchLines(rest, needle, number + 1)
  {
    FirstFromIs(first, needle, column);
    hide FirstFrom, FirstIn;
    assert ([first] + rest)[1..] == rest;
  }

  lemma {:induction false} InSearchLines(lines: seq<seq<Byte>>, needle: seq<Byte>, number: nat, line: nat, column: nat)
    ensures (line, column) in SearchLines(lines, needle, number) <==>
            number <= line < number + |lines| && FirstIn(lines[line - number], needle, column)
    decreases |lines|
  {
    if lines != [] {
      InSearchLines(lines[1..], needle, number + 1, line, column);
      SearchLinesCons(lines[0], lines[1..], needle, number, line, column);
      assert lines == [lines[0]] + lines[1..];
      hide SearchLines, FirstIn;
    }
  }

  /** The hits in a lowered text are where the text stands on its lines. */
  lemma HitsStandOn(content: seq<Byte>, needle: seq<Byte>, line: nat, column: nat)
    requires OneLine(needle)
    ensures (line, column) in Places(Hits(LowerBytes(content), LowerBytes(needle))) <==>
            On(content, needle, false, line, column)
  {
    var low, n := LowerBytes(content), LowerBytes(needle);
    var lines := FoldAll(true, Lines(content));
    HitsFromStart(content, low, n);
    OnMeans(content, needle, line, column);
    LoweredLines(content, line);
    hide *;
    LowerOneLine(needle);
    LowerLines(content, 0);
    HitsAreSearch(low, n, 0, 1);
    InSearchLines(lines, n, 1, line, column);
  }

  lemma HitsFromStart(content: seq<Byte>, low: seq<Byte>, n: seq<Byte>)
    ensures Lines(content) == LinesFrom(content, 0) && Hits(low, n) == HitsFrom(low, n, 0, 1)
  {
    hide LinesFrom, HitsFrom;
  }

  lemma LoweredLines(content: seq<Byte>, line: nat)
    ensures |FoldAll(true, Lines(content))| == |Lines(content)|
    ensures 1 <= line <= |Lines(content)| ==>
            FoldAll(true, Lines(content))[line - 1] == LowerBytes(Lines(content)[line - 1])
  {
    hide Lines, LowerBytes;
  }

  lemma OnMeans(content: seq<Byte>, needle: seq<Byte>, line: nat, column: nat)
    ensures On(content, needle, false, line, column) <==>
            1 <= line <= |Lines(content)| && FirstIn(LowerBytes(Lines(content)[line - 1]), LowerBytes(needle), column)
  {
    hide FirstIn, LowerBytes, Lines;
  }

  // --------------------------------------------------------------- the fast scan

  /** How many lines there are from an offset on. */
  lemma {:induction false} LineCount(c: seq<Byte>, s: nat)
    requires s < |c|
    ensures LfBefore(c, s) <= LfBefore(c, |c|)
    ensures |LinesFrom(c, s)| == LfBefore(c, |c|) - LfBefore(c, s) + if c[|c| - 1] == LF then 0 else 1
    decreases |c| - s
  {
    hide *;
    var e := LineEnd(c, s);
    LineEndIs(c, s);
    LinesCons(c, s);
    SameCount(c, s, e);
    if e < |c| {
      FeedCounts(c, e);
      if e + 1 < |c| {
        LineCount(c, e + 1);
      } else {
        NoLines(c);
      }
    }
  }

  lemma LineEndIs(c: seq<Byte>, s: nat)
    requires s < |c|
    ensures var e := LineEnd(c, s);
            && s <= e <= |c| && (forall i :: s <= i < e ==> c[i] != LF)
            && (e < |c| ==> c[e] == LF) && (e == |c| ==> c[|c| - 1] != LF)
  {
  }

  lemma FeedCounts(c: seq<Byte>, e: nat)
    requires e < |c| && c[e] == LF
    ensures LfBefore(c, e + 1) == LfBefore(c, e) + 1
  {
  }

  /** The line at an offset runs to the end exactly when it is the last, and no line feed follows it. */
  lemma LastLineIff(c: seq<Byte>, s: nat, number: nat)
    requires StartsLine(c, s, number) && s < |c| && c[|c| - 1] == CR
    ensures number == |Lines(c)| <==> LineEnd(c, s) == |c|
  {
    LineCount(c, 0);
    NoneBefore(c);
    SameCount(c, s, LineEnd(c, s));
    CountGrows(c, LineEnd(c, s), |c|);
    hide LfBefore, LinesFrom;
  }

  lemma FastText(content: seq<Byte>, h: Hit, length: nat)
    requires StartsLine(content, h.start, h.line) && h.start < |content|
    ensures 1 <= h.line <= |Lines(content)|
    ensures var line := Lines(content)[h.line - 1];
            MatchAt(content, h, length).text ==
            if EndsBare(content, h.line) && line != [] then line[..|line| - 1] else line
  {
    hide *;
    ReportedText(content, h, length);
    LineOf(content, h);
    WhenBare(content, h);
    if EndsBare(content, h.line) {
      CutText(content, h, length);
    }
  }

  lemma LineOf(c: seq<Byte>, h: Hit)
    requires StartsLine(c, h.start, h.line) && h.start < |c|
    ensures 1 <= h.line <= |Lines(c)| && Lines(c)[h.line - 1] == c[h.start..Trimmed(c, h.start, false)]
  {
    hide LinesFrom, LfBefore, Trimmed;
    LineFrom(c, 0, h.start);
    NoneBefore(c);
  }

  /** Bare is the line that runs to the end of a file ending in a carriage return. */
  lemma WhenBare(c: seq<Byte>, h: Hit)
    requires StartsLine(c, h.start, h.line) && h.start < |c|
    ensures EndsBare(c, h.line) <==> LineEnd(c, h.start) == |c| && c[|c| - 1] == CR
  {
    hide LinesFrom, LfBefore, StartsLine, LineEnd;
    if c[|c| - 1] == CR {
      LastLineIff(c, h.start, h.line);
    }
  }

  lemma CutText(c: seq<Byte>, h: Hit, length: nat)
    requires h.start < |c| && LineEnd(c, h.start) == |c| && c[|c| - 1] == CR
    ensures var line := c[h.start..Trimmed(c, h.start, false)];
            line != [] && MatchAt(c, h, length).text == line[..|line| - 1]
  {
    hide LineEnd;
    assert Trimmed(c, h.start, true) == |c| - 1 && Trimmed(c, h.start, false) == |c|;
    assert c[h.start..|c|][..|c| - h.start - 1] == c[h.start..|c| - 1];
  }

  lemma LowStarts(c: seq<Byte>, s: nat, number: nat)
    requires StartsLine(LowerBytes(c), s, number)
    ensures StartsLine(c, s, number)
  {
    SameLfCount(c, s);
    if s > 0 {
      LowerBreaks(c, s - 1);
    }
    hide LfBefore;
  }

  /** What the fast scan reports on a hit. */
  lemma HitReport(content: seq<Byte>, needle: seq<Byte>, i: nat)
    requires OneLine(needle) && Fast(content, needle)
    requires i < |Hits(LowerBytes(content), LowerBytes(needle))|
    ensures TextFinds(content, needle, false,
            MatchAt(content, Hits(LowerBytes(content), LowerBytes(needle))[i], |needle|))
  {
    var low, n := LowerBytes(content), LowerBytes(needle);
    var hits := Hits(low, n);
    var h := hits[i];
    assert StartsLine(low, 0, 1) by { NoneBefore(low); }
    assert hits == HitsFrom(low, n, 0, 1);
    assert Places(hits)[i] == (h.line, h.column);
    AsciiIffFast(content, needle);
    assert |low| == |content|;
    hide *;
    HitStarts(low, n, 0, 1, i);
    LowStarts(content, h.start, h.line);
    FastText(content, h, |needle|);
    HitsStandOn(content, needle, h.line, h.column);
    IsTextFinds(content, needle, h);
  }

  lemma AsciiIffFast(content: seq<Byte>, needle: seq<Byte>)
    ensures Fast(content, needle) <==> PlainAscii(content, needle)
  {
    LowerOneLine(needle);
    hide LowerBytes, IsAscii;
  }

  lemma IsTextFinds(content: seq<Byte>, needle: seq<Byte>, h: Hit)
    requires On(content, needle, false, h.line, h.column) && PlainAscii(content, needle)
    requires var line := Lines(content)[h.line - 1];
             MatchAt(content, h, |needle|).text ==
             if EndsBare(content, h.line) && line != [] then line[..|line| - 1] else line
    ensures TextFinds(content, needle, false, MatchAt(content, h, |needle|))
  {
    hide On, PlainAscii, EndsBare, Lines;
  }

  /** Two matches of a text at the same place are the same. */
  lemma TextFindsOnce(content: seq<Byte>, needle: seq<Byte>, exact: bool, m: Match, o: Match)
    requires TextFinds(content, needle, exact, m) && TextFinds(content, needle, exact, o)
    requires m.line == o.line && m.start == o.start
    ensures m == o
  {
    hide On, PlainAscii, EndsBare, Lines;
  }

  lemma MatchAtPlace(content: seq<Byte>, h: Hit, length: nat)
    ensures MatchAt(content, h, length).line == h.line && MatchAt(content, h, length).start == h.column
  {
  }

  lemma MatchesAtIs(content: seq<Byte>, hits: seq<Hit>, length: nat, m: Match)
    ensures m in MatchesAt(content, hits, length) <==>
            exists i :: 0 <= i < |hits| && m == MatchAt(content, hits[i], length)
  {
    hide MatchAt;
    var ms := MatchesAt(content, hits, length);
    if m in ms {
      var i :| 0 <= i < |ms| && ms[i] == m;
    }
    if i :| 0 <= i < |hits| && m == MatchAt(content, hits[i], length) {
      assert ms[i] == m;
    }
  }

  lemma FastFinds(content: seq<Byte>, needle: seq<Byte>, m: Match)
    requires OneLine(needle) && Fast(content, needle)
    ensures m in MatchesAt(content, Hits(LowerBytes(content), LowerBytes(needle)), |needle|) <==>
            TextFinds(content, needle, false, m)
  {
    var hits := Hits(LowerBytes(content), LowerBytes(needle));
    assert TextFinds(content, needle, false, m) ==> On(content, needle, false, m.line, m.start);
    hide *;
    MatchesAtIs(content, hits, |needle|, m);
    if i :| 0 <= i < |hits| && m == MatchAt(content, hits[i], |needle|) {
      HitReport(content, needle, i);
    }
    if TextFinds(content, needle, false, m) {
      HitsStandOn(content, needle, m.line, m.start);
      var i := PlaceOfHit(hits, m.line, m.start);
      HitReport(content, needle, i);
      MatchAtPlace(content, hits[i], |needle|);
      TextFindsOnce(content, needle, false, m, MatchAt(content, hits[i], |needle|));
    }
  }

  lemma PlaceOfHit(hits: seq<Hit>, line: nat, column: nat) returns (i: nat)
    requires (line, column) in Places(hits)
    ensures i < |hits| && hits[i].line == line && hits[i].column == column
  {
    i :| 0 <= i < |hits| && Places(hits)[i] == (line, column);
  }

  /** What the literal search reports, by lines: each line with the text, at its first occurrence, once. */
  lemma LiteralFinds(content: seq<Byte>, needle: seq<Byte>, exact: bool, m: Match)
    requires needle != []
    ensures m in LiteralMatches(content, needle, exact) <==> TextFinds(content, needle, exact, m)
  {
    hide *;
    AsciiIffFast(content, needle);
    LiteralCases(content, needle, exact);
    if !exact && Fast(content, needle) {
      FastIsOneLine(content, needle);
      FastFinds(content, needle, m);
    } else {
      InLineMatches(Lines(content), !exact, if exact then needle else LowerBytes(needle), 1, m);
      SlowFinds(content, needle, exact, m);
    }
  }

  lemma LiteralCases(content: seq<Byte>, needle: seq<Byte>, exact: bool)
    ensures LiteralMatches(content, needle, exact) ==
            if !exact && Fast(content, needle) then
              MatchesAt(content, Hits(LowerBytes(content), LowerBytes(needle)), |needle|)
            else LineMatches(Lines(content), !exact, if exact then needle else LowerBytes(needle), 1)
  {
    hide LineMatches, MatchesAt, Fast, LowerBytes, Hits, Lines;
  }

  lemma FastIsOneLine(content: seq<Byte>, needle: seq<Byte>)
    requires needle != [] && Fast(content, needle)
    ensures OneLine(needle)
  {
    LowerOneLine(needle);
    assert needle[|needle| - 1] in needle;
  }

  lemma SlowFinds(content: seq<Byte>, needle: seq<Byte>, exact: bool, m: Match)
    requires exact || !PlainAscii(content, needle)
    ensures TextFinds(content, needle, exact, m) <==>
            && 1 <= m.line < 1 + |Lines(content)|
            && FirstIn(Fold(!exact, Lines(content)[m.line - 1]), if exact then needle else LowerBytes(needle), m.start)
            && m.end == m.start + |needle| && m.text == Lines(content)[m.line - 1]
  {
    hide FirstIn, Lines, PlainAscii, EndsBare;
  }

  // ------------------------------------------------------------------ proximity

  lemma {:induction false} InNearMatches(lines: seq<seq<Byte>>, hits: seq<Hit>, length: nat, m: Match)
    ensures m in NearMatchesOf(lines, hits, length) <==>
            exists h :: h in hits && h.line == m.line && h.column == m.start && 1 <= h.line <= |lines|
                        && m.text == lines[h.line - 1] && m.end == h.column + length
    decreases |hits|
  {
    if hits != [] {
      var init, last := hits[..|hits| - 1], hits[|hits| - 1];
      assert hits == init + [last];
      InNearMatches(lines, init, length, m);
    }
  }

  lemma HitOnIff(content: seq<Byte>, needle: seq<Byte>, line: nat, column: nat)
    requires OneLine(needle)
    ensures (exists h ::
            h in Hits(LowerBytes(content), LowerBytes(needle)) && h.line == line && h.column == column) <==>
            On(content, needle, false, line, column)
  {
    var hits := Hits(LowerBytes(content), LowerBytes(needle));
    hide Hits, On, OneLine;
    HitsStandOn(content, needle, line, column);
    if (line, column) in Places(hits) {
      var i := PlaceOfHit(hits, line, column);
      assert hits[i] in hits;
    }
    if h :| h in hits && h.line == line && h.column == column {
      var i :| 0 <= i < |hits| && hits[i] == h;
      assert Places(hits)[i] == (line, column);
    }
  }

  /** A term within the distance, by its hits or by the lines it is on. */
  lemma WithinIff(content: seq<Byte>, term: seq<Byte>, line: nat, distance: nat)
    requires OneLine(term)
    ensures Within(line, Hits(LowerBytes(content), LowerBytes(term)), distance) <==>
            SomewhereNear(content, term, line, distance)
  {
    var hits := Hits(LowerBytes(content), LowerBytes(term));
    hide Hits, On, OneLine;
    if Within(line, hits, distance) {
      var k :| 0 <= k < |hits| && line <= hits[k].line + distance && hits[k].line <= line + distance;
      assert hits[k] in hits;
      HitOnIff(content, term, hits[k].line, hits[k].column);
    }
    if SomewhereNear(content, term, line, distance) {
      var l: nat, c: nat :| On(content, term, false, l, c) && l <= line + distance && line <= l + distance;
      HitOnIff(content, term, l, c);
      var h :| h in hits && h.line == l && h.column == c;
      var k :| 0 <= k < |hits| && hits[k] == h;
    }
  }

  /** What the proximity search reports, by lines. */
  lemma ProximityFinds(content: seq<Byte>, terms: seq<seq<Byte>>, distance: nat, m: Match)
    requires forall k :: 0 <= k < |terms| ==> terms[k] != []
    ensures m in NearMatches(content, terms, distance) <==> NearFinds(content, terms, distance, m)
  {
    var low, ts := LowerBytes(content), LowerTerms(terms);
    hide LowerBytes, Hits, On, Lines, OneLine, NoBreak, SomewhereNear, NearMatchesOf, NearHits, AllWithin;
    BreaksOf(terms);
    if terms != [] && forall k :: 0 <= k < |terms| ==> NoBreak(ts[k]) {
      var hits := Hits(low, ts[0]);
      assert ts[0] == LowerBytes(terms[0]) && OneLine(terms[0]);
      InNearMatches(Lines(content), NearHits(low, hits, ts, distance), |terms[0]|, m);
      HitOnIff(content, terms[0], m.line, m.start);
      forall h
        ensures h in NearHits(low, hits, ts, distance) <==> h in hits && AllWithin(low, h.line, ts, distance)
      {
        NearHitsAre(low, hits, ts, distance, h);
      }
      AllNearIff(content, terms, m.line, distance);
      LineInRange(content, terms[0], m);
    }
  }

  lemma LineInRange(content: seq<Byte>, needle: seq<Byte>, m: Match)
    ensures On(content, needle, false, m.line, m.start) ==> 1 <= m.line <= |Lines(content)|
  {
  }

  lemma AllNearIff(content: seq<Byte>, terms: seq<seq<Byte>>, line: nat, distance: nat)
    requires forall k :: 0 <= k < |terms| ==> OneLine(terms[k])
    ensures AllWithin(LowerBytes(content), line, LowerTerms(terms), distance) <==>
            forall k :: 1 <= k < |terms| ==> SomewhereNear(content, terms[k], line, distance)
  {
    hide LowerBytes, Hits, Within, SomewhereNear, OneLine;
    forall k | 1 <= k < |terms|
      ensures Within(line, Hits(LowerBytes(content), LowerTerms(terms)[k]), distance) <==>
              SomewhereNear(content, terms[k], line, distance)
    {
      WithinIff(content, terms[k], line, distance);
    }
  }

  lemma BreaksOf(terms: seq<seq<Byte>>)
    requires forall k :: 0 <= k < |terms| ==> terms[k] != []
    ensures forall k :: 0 <= k < |terms| ==>
              (NoBreak(LowerTerms(terms)[k]) <==> LF !in terms[k] && CR !in terms[k])
              && (NoBreak(LowerTerms(terms)[k]) ==> OneLine(terms[k]))
  {
    forall k | 0 <= k < |terms|
      ensures NoBreak(LowerTerms(terms)[k]) <==> LF !in terms[k] && CR !in terms[k]
      ensures NoBreak(LowerTerms(terms)[k]) ==> OneLine(terms[k])
    {
      LowerOneLine(terms[k]);
      assert terms[k][|terms[k]| - 1] in terms[k];
      hide LowerBytes;
    }
  }

  // ------------------------------------------------------------- line after line

  /** Each match stands on a later line than the one before it. */
  ghost predicate LineByLine(ms: seq<Match>) {
    forall i, j :: 0 <= i < j < |ms| ==> ms[i].line < ms[j].line
  }

  lemma {:induction false} LineMatchesRise(lines: seq<seq<Byte>>, lower: bool, needle: seq<Byte>, number: nat)
    ensures LineByLine(LineMatches(lines, lower, needle, number))
    decreases |lines|
  {
    if lines != [] {
      var init := lines[..|lines| - 1];
      LineMatchesRise(init, lower, needle, number);
      forall m | m in LineMatches(init, lower, needle, number)
        ensures m.line < number + |init|
      {
        InLineMatches(init, lower, needle, number, m);
      }
      hide Fold, FirstFrom;
    }
  }

  lemma MatchesAtRise(content: seq<Byte>, hits: seq<Hit>, length: nat)
    requires AscendFrom(hits, 1)
    ensures LineByLine(MatchesAt(content, hits, length))
  {
    hide MatchAt;
    forall i | 0 <= i < |hits|
      ensures MatchesAt(content, hits, length)[i].line == hits[i].line
    {
      MatchAtPlace(content, hits[i], length);
    }
  }

  /** The matches of a text are listed line by line. */
  lemma LiteralRises(content: seq<Byte>, needle: seq<Byte>, exact: bool)
    ensures LineByLine(LiteralMatches(content, needle, exact))
  {
    LineMatchesRise(Lines(content), !exact, if exact then needle else LowerBytes(needle), 1);
    HitsAscend(LowerBytes(content), LowerBytes(needle), 0, 1);
    hide MatchesAt, LineMatches, LowerBytes, Lines, HitsFrom;
    MatchesAtRise(content, Hits(LowerBytes(content), LowerBytes(needle)), |needle|);
  }

  lemma {:induction false} NearMatchesRise(lines: seq<seq<Byte>>, hits: seq<Hit>, length: nat)
    requires AscendFrom(hits, 1)
    ensures LineByLine(NearMatchesOf(lines, hits, length))
    decreases |hits|
  {
    if hits != [] {
      var init := hits[..|hits| - 1];
      NearMatchesRise(lines, init, length);
      forall m | m in NearMatchesOf(lines, init, length)
        ensures m.line < hits[|hits| - 1].line
      {
        InNearMatches(lines, init, length, m);
      }
    }
  }

  lemma {:induction false} NearHitsRise(c: seq<Byte>, hits: seq<Hit>, terms: seq<seq<Byte>>, distance: nat)
    requires AscendFrom(hits, 1)
    ensures AscendFrom(NearHits(c, hits, terms, distance), 1)
    ensures forall h :: h in NearHits(c, hits, terms, distance) ==> h in hits
    decreases |hits|
  {
    hide AllWithin;
    if hits != [] {
      var init, last := hits[..|hits| - 1], hits[|hits| - 1];
      assert hits == init + [last];
      NearHitsRise(c, init, terms, distance);
      var near, all := NearHits(c, init, terms, distance), NearHits(c, hits, terms, distance);
      assert all == near || all == near + [last];
      hide NearHits;
      forall i | 0 <= i < |near|
        ensures near[i].line < last.line
      {
        assert near[i] in near;
        BeforeLast(hits, near[i]);
      }
    }
  }

  lemma BeforeLast(hits: seq<Hit>, h: Hit)
    requires AscendFrom(hits, 1) && hits != [] && h in hits[..|hits| - 1]
    ensures h.line < hits[|hits| - 1].line
  {
    var i :| 0 <= i < |hits| - 1 && hits[i] == h;
  }

  /** The matches of several texts near each other are listed line by line. */
  lemma ProximityRises(content: seq<Byte>, terms: seq<seq<Byte>>, distance: nat)
    ensures LineByLine(NearMatches(content, terms, distance))
  {
    var low, ts := LowerBytes(content), LowerTerms(terms);
    hide NearMatchesOf, NearHits, LowerBytes, Lines, HitsFrom, NoBreak;
    if terms != [] {
      var hits := Hits(low, ts[0]);
      HitsAscend(low, ts[0], 0, 1);
      NearHitsRise(low, hits, ts, distance);
      NearMatchesRise(Lines(content), NearHits(low, hits, ts, distance), |terms[0]|);
    }
  }

  // -------------------------------------------------------------- trees of steps

  /** A match of the tree: of a part, if all parts of an And have one; the first line for a Not with none. */
  ghost predicate Finds(content: seq<Byte>, v: VerificationStep, engine: Engine, m: Match)
    decreases v, 0
  {
    match v
    case Literal(text) => TextFinds(content, Utf8(text), false, m)
    case BoostedLiteral(text, _) => TextFinds(content, Utf8(text), false, m)
    case Phrase(text, caseInsensitive) => TextFinds(content, Utf8(text), !caseInsensitive, m)
    case Regex(pattern) => m in engine.matches(pattern, content)
    case Near(terms, distance) => NearFinds(content, Utf8All(terms), distance, m)
    case And(steps) =>
      && (forall k :: 0 <= k < |steps| ==> SomeFinds(content, steps[k], engine))
      && exists k :: 0 <= k < |steps| && Finds(content, steps[k], engine, m)
    case Or(steps) => exists k :: 0 <= k < |steps| && Finds(content, steps[k], engine, m)
    case Not(inner) =>
      && m == Match(1, if Lines(content) == [] then [] else Lines(content)[0], 0, 0)
      && !SomeFinds(content, inner, engine)
  }

  ghost predicate SomeFinds(content: seq<Byte>, v: VerificationStep, engine: Engine)
    decreases v, 1
  {
    exists o :: Finds(content, v, engine, o)
  }

  lemma {:induction false} InFirst(content: seq<Byte>, v: VerificationStep, n: nat, engine: Engine, m: Match)
    requires n <= |Children(v)|
    ensures m in MatchesOfFirst(content, v, n, engine) <==>
            exists k :: 0 <= k < n && m in VerifyMatches(content, Children(v)[k], engine)
    decreases n
  {
    hide VerifyMatches;
    if n > 0 {
      InFirst(content, v, n - 1, engine, m);
    }
  }

  /** Exactly these matches are reported, for every content and every tree. */
  lemma {:induction false} ReportedIff(content: seq<Byte>, v: VerificationStep, engine: Engine, m: Match)
    requires NonEmptyTexts(v)
    ensures m in VerifyMatches(content, v, engine) <==> Finds(content, v, engine, m)
    decreases v
  {
    hide LiteralMatches, NearMatches, TextFinds, NearFinds, Utf8, Utf8All, LinesFrom;
    match v {
      case Literal(text) =>
        Utf8NonEmpty(text);
        LiteralFinds(content, Utf8(text), false, m);
      case BoostedLiteral(text, _) =>
        Utf8NonEmpty(text);
        LiteralFinds(content, Utf8(text), false, m);
      case Phrase(text, caseInsensitive) =>
        Utf8NonEmpty(text);
        LiteralFinds(content, Utf8(text), !caseInsensitive, m);
      case Regex(_) =>
      case Near(terms, distance) =>
        TermsNonEmpty(terms);
        ProximityFinds(content, Utf8All(terms), distance, m);
      case And(steps) => PartsReported(content, v, engine, m);
      case Or(steps) => PartsReported(content, v, engine, m);
      case Not(inner) =>
        forall o
          ensures o in VerifyMatches(content, inner, engine) <==> Finds(content, inner, engine, o)
        {
          ReportedIff(content, inner, engine, o);
        }
        SomeFound(content, inner, engine);
    }
  }

  lemma TermsNonEmpty(terms: seq<string>)
    requires forall k :: 0 <= k < |terms| ==> terms[k] != ""
    ensures forall k :: 0 <= k < |terms| ==> Utf8All(terms)[k] != []
  {
    forall k | 0 <= k < |terms|
      ensures Utf8All(terms)[k] != []
    {
      Utf8NonEmpty(terms[k]);
    }
  }

  lemma {:induction false} PartsReported(content: seq<Byte>, v: VerificationStep, engine: Engine, m: Match)
    requires (v.And? || v.Or?) && NonEmptyTexts(v)
    ensures m in VerifyMatches(content, v, engine) <==> Finds(content, v, engine, m)
    decreases v, 0
  {
    var steps := Children(v);
    hide VerifyMatches, MatchesOfFirst, Finds, NonEmptyTexts;
    PartsNonEmpty(v);
    forall k, o | 0 <= k < |steps|
      ensures o in VerifyMatches(content, steps[k], engine) <==> Finds(content, steps[k], engine, o)
    {
      ReportedIff(content, steps[k], engine, o);
    }
    forall k | 0 <= k < |steps|
      ensures VerifyMatches(content, steps[k], engine) != [] <==> SomeFinds(content, steps[k], engine)
    {
      SomeFound(content, steps[k], engine);
    }
    InFirst(content, v, |steps|, engine, m);
    PartsCollected(content, v, engine);
    PartsFound(content, v, engine, m);
  }

  lemma PartsNonEmpty(v: VerificationStep)
    requires NonEmptyTexts(v)
    ensures forall k :: 0 <= k < |Children(v)| ==> NonEmptyTexts(Children(v)[k])
  {
  }

  lemma SomeFound(content: seq<Byte>, v: VerificationStep, engine: Engine)
    requires forall o :: o in VerifyMatches(content, v, engine) <==> Finds(content, v, engine, o)
    ensures VerifyMatches(content, v, engine) != [] <==> SomeFinds(content, v, engine)
  {
    hide VerifyMatches, Finds;
    var ms := VerifyMatches(content, v, engine);
    if ms != [] {
      assert ms[0] in ms && Finds(content, v, engine, ms[0]);
    }
    if o :| Finds(content, v, engine, o) {
      assert o in ms;
    }
  }

  lemma PartsCollected(content: seq<Byte>, v: VerificationStep, engine: Engine)
    requires v.And? || v.Or?
    ensures VerifyMatches(content, v, engine) ==
            if v.And?
              && exists k :: 0 <= k < |Children(v)| && VerifyMatches(content, Children(v)[k], engine) == [] then []
            else MatchesOfFirst(content, v, |Children(v)|, engine)
  {
    hide MatchesOfFirst;
  }

  lemma PartsFound(content: seq<Byte>, v: VerificationStep, engine: Engine, m: Match)
    requires v.And? || v.Or?
    ensures Finds(content, v, engine, m) <==>
            && (v.And? ==> forall k :: 0 <= k < |Children(v)| ==> SomeFinds(content, Children(v)[k], engine))
            && exists k :: 0 <= k < |Children(v)| && Finds(content, Children(v)[k], engine, m)
  {
    hide SomeFinds;
    match v {
      case And(steps) =>
        assert Children(v) == steps;
        assert Finds(content, v, engine, m) <==>
               && (forall k :: 0 <= k < |steps| ==> SomeFinds(content, steps[k], engine))
               && exists k :: 0 <= k < |steps| && Finds(content, steps[k], engine, m);
      case Or(steps) =>
        assert Children(v) == steps;
        assert Finds(content, v, engine, m) <==> exists k :: 0 <= k < |steps| && Finds(content, steps[k], engine, m);
    }
  }

  // ------------------------------------------------------------------- the order

  lemma {:induction false} SameFirst(content: seq<Byte>, v: VerificationStep, w: VerificationStep, n: nat,
      engine: Engine)
    requires n <= |Children(v)| && n <= |Children(w)| && forall k :: 0 <= k < n ==> Children(v)[k] == Children(w)[k]
    ensures MatchesOfFirst(content, v, n, engine) == MatchesOfFirst(content, w, n, engine)
    decreases n
  {
    hide VerifyMatches;
    if n > 0 {
      SameFirst(content, v, w, n - 1, engine);
    }
  }

  /** The matches of one more part of an Or come after those of the others. */
  lemma OrInOrder(content: seq<Byte>, steps: seq<VerificationStep>, last: VerificationStep, engine: Engine)
    ensures VerifyMatches(content, VerificationStep.Or(steps + [last]), engine) ==
            VerifyMatches(content, VerificationStep.Or(steps), engine) + VerifyMatches(content, last, engine)
  {
    var v, w := VerificationStep.Or(steps + [last]), VerificationStep.Or(steps);
    ChildrenAre(steps);
    ChildrenAre(steps + [last]);
    hide *;
    OrMatches(content, v, engine);
    OrMatches(content, w, engine);
    OneMore(content, v, w, last, engine);
  }

  lemma ChildrenAre(steps: seq<VerificationStep>)
    ensures Children(VerificationStep.Or(steps)) == steps && Children(VerificationStep.And(steps)) == steps
  {
  }

  lemma OrMatches(content: seq<Byte>, v: VerificationStep, engine: Engine)
    requires v.Or?
    ensures VerifyMatches(content, v, engine) == MatchesOfFirst(content, v, |Children(v)|, engine)
  {
    PartsCollected(content, v, engine);
    hide VerifyMatches, MatchesOfFirst;
  }

  lemma OneMore(content: seq<Byte>, v: VerificationStep, w: VerificationStep, last: VerificationStep, engine: Engine)
    requires Children(v) == Children(w) + [last]
    ensures MatchesOfFirst(content, v, |Children(v)|, engine) ==
            MatchesOfFirst(content, w, |Children(w)|, engine) + VerifyMatches(content, last, engine)
  {
    SameFirst(content, v, w, |Children(w)|, engine);
    hide VerifyMatches, Children;
  }

  /** The same of an And, when all its parts have matches. */
  lemma AndInOrder(content: seq<Byte>, steps: seq<VerificationStep>, last: VerificationStep, engine: Engine)
    requires forall k :: 0 <= k < |steps| ==> VerifyMatches(content, steps[k], engine) != []
    requires VerifyMatches(content, last, engine) != []
    ensures VerifyMatches(content, VerificationStep.And(steps + [last]), engine) ==
            VerifyMatches(content, VerificationStep.And(steps), engine) + VerifyMatches(content, last, engine)
  {
    var v, w := VerificationStep.And(steps + [last]), VerificationStep.And(steps);
    ChildrenAre(steps);
    ChildrenAre(steps + [last]);
    hide *;
    AllHaveMatches(content, v, engine);
    AllHaveMatches(content, w, engine);
    OneMore(content, v, w, last, engine);
  }

  lemma AllHaveMatches(content: seq<Byte>, v: VerificationStep, engine: Engine)
    requires v.And? && forall k :: 0 <= k < |Children(v)| ==> VerifyMatches(content, Children(v)[k], engine) != []
    ensures VerifyMatches(content, v, engine) == MatchesOfFirst(content, v, |Children(v)|, engine)
  {
    PartsCollected(content, v, engine);
    hide VerifyMatches, MatchesOfFirst;
  }

  // ------------------------------------------------------------ trees of a query

  /** A match of a query tree; parts that say nothing are passed over. */
  ghost predicate NodeFinds(node: QueryNode, ci: bool, content: seq<Byte>, engine: Engine, m: Match)
    decreases node, 0
  {
    match node
    case Empty => false
    case Literal(text) => TextFinds(content, Utf8(text), false, m)
    case BoostedLiteral(text, _) => TextFinds(content, Utf8(text), false, m)
    case Near(terms, distance) => NearFinds(content, Utf8All(terms), distance, m)
    case Phrase(text) => TextFinds(content, Utf8(text), !ci, m)
    case Regex(pattern) =>
      m in engine.matches(if ci && !("(?i)" <= pattern) then "(?i)" + pattern else pattern, content)
    case And(nodes) =>
      && (forall k :: 0 <= k < |nodes| && Says(nodes[k]) ==> SomeNodeFinds(nodes[k], ci, content, engine))
      && exists k :: 0 <= k < |nodes| && Says(nodes[k]) && NodeFinds(nodes[k], ci, content, engine, m)
    case Or(nodes) => exists k :: 0 <= k < |nodes| && Says(nodes[k]) && NodeFinds(nodes[k], ci, content, engine, m)
    case Not(inner) =>
      && Says(inner) && !SomeNodeFinds(inner, ci, content, engine)
      && m == Match(1, if Lines(content) == [] then [] else Lines(content)[0], 0, 0)
  }

  ghost predicate SomeNodeFinds(node: QueryNode, ci: bool, content: seq<Byte>, engine: Engine)
    decreases node, 1
  {
    exists o :: NodeFinds(node, ci, content, engine, o)
  }

  /** The planned verification of a tree finds what the tree finds. */
  ghost predicate PlansMatches(node: QueryNode, ci: bool, content: seq<Byte>, engine: Engine) {
    && (PlanNode(node, ci).verification.Some? <==> Says(node))
    && (Says(node) ==> forall m ::
          Finds(content, PlanNode(node, ci).verification.value, engine, m) <==> NodeFinds(node, ci, content, engine, m))
  }

  lemma {:induction false} PlansAsFound(node: QueryNode, ci: bool, content: seq<Byte>, engine: Engine)
    ensures PlansMatches(node, ci, content, engine)
    decreases node
  {
    hide TextFinds, NearFinds, Utf8, LiteralSteps, PhraseSteps, RegexSteps, NearSteps;
    match node {
      case And(nodes) => JoinedAsFound(node, ci, content, engine);
      case Or(nodes) => JoinedAsFound(node, ci, content, engine);
      case Not(inner) =>
        PlansAsFound(inner, ci, content, engine);
        if Says(inner) {
          SameSome(inner, ci, content, engine);
        }
      case _ =>
    }
  }

  lemma SameSome(node: QueryNode, ci: bool, content: seq<Byte>, engine: Engine)
    requires Says(node) && PlansMatches(node, ci, content, engine)
    ensures SomeFinds(content, PlanNode(node, ci).verification.value, engine) <==>
            SomeNodeFinds(node, ci, content, engine)
  {
    hide PlanNode, Finds, NodeFinds, Says;
  }

  lemma JoinedFinds(vs: seq<VerificationStep>, all: bool, content: seq<Byte>, engine: Engine, m: Match)
    requires vs != []
    ensures Finds(content, Joined(vs, all).value, engine, m) <==>
            && (all ==> forall j :: 0 <= j < |vs| ==> SomeFinds(content, vs[j], engine))
            && exists j :: 0 <= j < |vs| && Finds(content, vs[j], engine, m)
  {
    if |vs| == 1 {
      hide Finds;
      assert Finds(content, vs[0], engine, m) ==> SomeFinds(content, vs[0], engine);
    } else {
      var v := Joined(vs, all).value;
      assert Children(v) == vs;
      PartsFound(content, v, engine, m);
      hide Finds, SomeFinds, Children;
    }
  }

  lemma {:induction false} JoinedAsFound(node: QueryNode, ci: bool, content: seq<Byte>, engine: Engine)
    requires node.And? || node.Or?
    ensures PlansMatches(node, ci, content, engine)
    decreases node, 0
  {
    var vs := VerificationsOf(node, |Nodes(node)|, ci);
    forall k | 0 <= k < |Nodes(node)|
      ensures PlansMatches(Nodes(node)[k], ci, content, engine)
    {
      PlansAsFound(Nodes(node)[k], ci, content, engine);
    }
    VerificationMeans(node, ci, content, engine);
    assert PlanNode(node, ci).verification == Joined(vs, node.And?);
    hide PlanNode, HasMatch, Joined, VerificationsOf, Wanted, Says, Finds, NodeFinds, PlansMatches;
    SaysIffVerified(node, ci, content, engine);
    if Says(node) {
      NotNone(vs, node.And?);
      forall m
        ensures Finds(content, Joined(vs, node.And?).value, engine, m) <==> NodeFinds(node, ci, content, engine, m)
      {
        JoinedFinds(vs, node.And?, content, engine, m);
        SomePartFinds(node, ci, content, engine, m);
        AllPartsFind(node, ci, content, engine);
        NodePartsFind(node, ci, content, engine, m);
      }
    }
    IsPlansMatches(node, ci, content, engine);
  }

  lemma NotNone(vs: seq<VerificationStep>, all: bool)
    requires Joined(vs, all).Some?
    ensures vs != []
  {
  }

  lemma SaysIffVerified(node: QueryNode, ci: bool, content: seq<Byte>, engine: Engine)
    requires Means(node, ci, content, engine)
    ensures PlanNode(node, ci).verification.Some? <==> Says(node)
  {
    hide PlanNode, Says, Wanted, HasMatch;
  }

  lemma IsPlansMatches(node: QueryNode, ci: bool, content: seq<Byte>, engine: Engine)
    requires PlanNode(node, ci).verification.Some? <==> Says(node)
    requires Says(node) ==> forall m ::
               Finds(content, PlanNode(node, ci).verification.value, engine, m) <==>
                 NodeFinds(node, ci, content, engine, m)
    ensures PlansMatches(node, ci, content, engine)
  {
    hide PlanNode, Says, Finds, NodeFinds;
  }

  lemma PartPlans(node: QueryNode, ci: bool, content: seq<Byte>, engine: Engine, k: nat, m: Match)
    requires k < |Nodes(node)| && PlansMatches(Nodes(node)[k], ci, content, engine)
    ensures PlanNode(Nodes(node)[k], ci).verification.Some? <==> Says(Nodes(node)[k])
    ensures Says(Nodes(node)[k]) ==>
            (Finds(content, PlanNode(Nodes(node)[k], ci).verification.value, engine, m) <==>
              NodeFinds(Nodes(node)[k], ci, content, engine, m))
  {
    hide PlanNode, Says, Finds, NodeFinds;
  }

  lemma SomePartFinds(node: QueryNode, ci: bool, content: seq<Byte>, engine: Engine, m: Match)
    requires node.And? || node.Or?
    requires forall k :: 0 <= k < |Nodes(node)| ==> PlansMatches(Nodes(node)[k], ci, content, engine)
    ensures var vs := VerificationsOf(node, |Nodes(node)|, ci);
            (exists j :: 0 <= j < |vs| && Finds(content, vs[j], engine, m)) <==>
            exists k :: 0 <= k < |Nodes(node)| && Says(Nodes(node)[k])
              && NodeFinds(Nodes(node)[k], ci, content, engine, m)
  {
    var vs := VerificationsOf(node, |Nodes(node)|, ci);
    hide PlanNode, VerificationsOf, Says, Finds, NodeFinds, PlansMatches;
    if j :| 0 <= j < |vs| && Finds(content, vs[j], engine, m) {
      var k := SourceOf(node, ci, j);
      PartPlans(node, ci, content, engine, k, m);
    }
    if k :| 0 <= k < |Nodes(node)| && Says(Nodes(node)[k]) && NodeFinds(Nodes(node)[k], ci, content, engine, m) {
      PartPlans(node, ci, content, engine, k, m);
      var j := PlaceOf(node, ci, k);
      assert Finds(content, vs[j], engine, m);
    }
  }

  lemma AllPartsFind(node: QueryNode, ci: bool, content: seq<Byte>, engine: Engine)
    requires node.And? || node.Or?
    requires forall k :: 0 <= k < |Nodes(node)| ==> PlansMatches(Nodes(node)[k], ci, content, engine)
    ensures var vs := VerificationsOf(node, |Nodes(node)|, ci);
            (forall j :: 0 <= j < |vs| ==> SomeFinds(content, vs[j], engine)) <==>
            forall k :: 0 <= k < |Nodes(node)| && Says(Nodes(node)[k]) ==>
              SomeNodeFinds(Nodes(node)[k], ci, content, engine)
  {
    var vs := VerificationsOf(node, |Nodes(node)|, ci);
    hide PlanNode, VerificationsOf, Says, SomeFinds, SomeNodeFinds, PlansMatches;
    var m := Match(0, [], 0, 0);
    if forall j :: 0 <= j < |vs| ==> SomeFinds(content, vs[j], engine) {
      forall k | 0 <= k < |Nodes(node)| && Says(Nodes(node)[k])
        ensures SomeNodeFinds(Nodes(node)[k], ci, content, engine)
      {
        PartPlans(node, ci, content, engine, k, m);
        SameSome(Nodes(node)[k], ci, content, engine);
        var j := PlaceOf(node, ci, k);
        assert SomeFinds(content, vs[j], engine);
      }
    }
    if forall k :: 0 <= k < |Nodes(node)| && Says(Nodes(node)[k]) ==>
      SomeNodeFinds(Nodes(node)[k], ci, content, engine) {
      forall j | 0 <= j < |vs|
        ensures SomeFinds(content, vs[j], engine)
      {
        var k := SourceOf(node, ci, j);
        PartPlans(node, ci, content, engine, k, m);
        SameSome(Nodes(node)[k], ci, content, engine);
      }
    }
  }

  lemma NodePartsFind(node: QueryNode, ci: bool, content: seq<Byte>, engine: Engine, m: Match)
    requires node.And? || node.Or?
    ensures NodeFinds(node, ci, content, engine, m) <==>
            && (node.And? ==> forall k :: 0 <= k < |Nodes(node)| && Says(Nodes(node)[k]) ==>
                                SomeNodeFinds(Nodes(node)[k], ci, content, engine))
            && exists k ::
               0 <= k < |Nodes(node)| && Says(Nodes(node)[k]) && NodeFinds(Nodes(node)[k], ci, content, engine, m)
  {
    hide SomeNodeFinds, Says;
    match node {
      case And(nodes) =>
        assert Nodes(node) == nodes;
        assert NodeFinds(node, ci, content, engine, m) <==>
               && (forall k :: 0 <= k < |nodes| && Says(nodes[k]) ==> SomeNodeFinds(nodes[k], ci, content, engine))
               && exists k :: 0 <= k < |nodes| && Says(nodes[k]) && NodeFinds(nodes[k], ci, content, engine, m);
      case Or(nodes) =>
        assert Nodes(node) == nodes;
        assert NodeFinds(node, ci, content, engine, m) <==>
               exists k :: 0 <= k < |nodes| && Says(nodes[k]) && NodeFinds(nodes[k], ci, content, engine, m);
    }
  }

  // ------------------------------------------------------------------ line filters

  /** The line is one of those asked for. */
  predicate InRange(line: nat, f: FilterStep) {
    && (f.lineStart.Some? ==> f.lineStart.value <= line)
    && (f.lineEnd.Some? ==> line <= f.lineEnd.value)
  }

  /** The query shows something of a content, in the lines asked for. */
  ghost predicate Shows(q: Query, content: seq<Byte>, engine: Engine) {
    exists m :: NodeFinds(q.root, q.caseInsensitive, content, engine, m) && InRange(m.line, q.filters)
  }

  /** The verification of a query that says something finds exactly what the query tree does. */
  lemma QueryFinds(q: Query, content: seq<Byte>, engine: Engine, m: Match)
    requires Says(q.root)
    requires PlanQuery(q).verification.Some? ==> NonEmptyTexts(PlanQuery(q).verification.value)
    ensures PlanQuery(q).verification.Some?
    ensures m in VerifyMatches(content, PlanQuery(q).verification.value, engine) <==>
            NodeFinds(q.root, q.caseInsensitive, content, engine, m)
  {
    var v := PlanQuery(q).verification;
    assert v == PlanNode(q.root, q.caseInsensitive).verification;
    PlansAsFound(q.root, q.caseInsensitive, content, engine);
    hide PlanNode, Says, NodeFinds, Finds, VerifyMatches, NonEmptyTexts;
    ReportedIff(content, v.value, engine, m);
  }
}
