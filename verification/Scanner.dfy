/**
  Searching a file's text (src/query/executor.rs:1276-1480) on its UTF-8 bytes.
  The fast scans look for the needle once over the whole text and follow the
  lines with a cursor; the simple form searches line by line.
*/
module Scanner {
  import opened Prelude
  import opened Text

  function LowerByte(b: Byte): Byte {
    if 65 <= b <= 90 then b + 32 else b
  }

  /** `to_ascii_lowercase`. */
  function LowerBytes(s: seq<Byte>): (r: seq<Byte>)
    ensures |r| == |s| && forall i :: 0 <= i < |s| ==> r[i] == LowerByte(s[i])
  {
    seq(|s|, i requires 0 <= i < |s| => LowerByte(s[i]))
  }

  /** A text to look for that a line can hold: not empty, without a line feed, and not ending in a carriage return. */
  predicate OneLine(needle: seq<Byte>) {
    needle != [] && LF !in needle && needle[|needle| - 1] != CR
  }

  // --------------------------------------------------------------------- lines

  /** The next line feed at or after `s`, or the end. */
  function LineEnd(c: seq<Byte>, s: nat): (e: nat)
    requires s <= |c|
    ensures s <= e <= |c| && (e < |c| ==> c[e] == LF)
    ensures forall i :: s <= i < e ==> c[i] != LF
    decreases |c| - s
  {
    if s == |c| || c[s] == LF then s else LineEnd(c, s + 1)
  }

  /** Where the line ends without its carriage return, if it has one to lose. */
  function Trimmed(c: seq<Byte>, s: nat, always: bool): (e: nat)
    requires s <= |c|
    ensures s <= e <= LineEnd(c, s)
  {
    var e := LineEnd(c, s);
    if e > s && c[e - 1] == CR && (always || e < |c|) then e - 1 else e
  }

  /** `str::lines`, from the line starting at `s` on. */
  function LinesFrom(c: seq<Byte>, s: nat): seq<seq<Byte>>
    requires s <= |c|
    decreases |c| - s
  {
    if s == |c| then []
    else
      var e := LineEnd(c, s);
      [c[s..Trimmed(c, s, false)]] + if e < |c| then LinesFrom(c, e + 1) else []
  }

  function Lines(c: seq<Byte>): seq<seq<Byte>> {
    LinesFrom(c, 0)
  }

  // -------------------------------------------------------- the simple search

  /** The first occurrence at or after `s` that ends by `e`. */
  function FirstFrom(c: seq<Byte>, needle: seq<Byte>, s: nat, e: nat): (r: Option<nat>)
    requires s <= e <= |c|
    ensures r.Some? ==> s <= r.value && r.value + |needle| <= e && At(c, needle, r.value)
    ensures r.Some? ==> forall p :: s <= p < r.value ==> !At(c, needle, p)
    ensures r.None? ==> forall p :: s <= p && p + |needle| <= e ==> !At(c, needle, p)
    decreases e - s
  {
    if s + |needle| > e then None
    else if At(c, needle, s) then Some(s)
    else if s == e then None
    else FirstFrom(c, needle, s + 1, e)
  }

  /** Line by line: the number of each line with the needle and the column of its first occurrence. */
  function SearchLines(lines: seq<seq<Byte>>, needle: seq<Byte>, number: nat): seq<(nat, nat)> {
    if lines == [] then []
    else
      var p := FirstFrom(lines[0], needle, 0, |lines[0]|);
      (if p.Some? then [(number, p.value)] else []) + SearchLines(lines[1..], needle, number + 1)
  }

  // ------------------------------------------ the same search, by byte offsets

  /** A line with the needle: its number, the offset it starts at, and the column of the first occurrence. */
  datatype Hit = Hit(line: nat, start: nat, column: nat)

  /** Hits without their offsets. */
  function Places(hits: seq<Hit>): (r: seq<(nat, nat)>)
    ensures |r| == |hits| && forall i :: 0 <= i < |hits| ==> r[i] == (hits[i].line, hits[i].column)
  {
    seq(|hits|, i requires 0 <= i < |hits| => (hits[i].line, hits[i].column))
  }

  function HitsFrom(c: seq<Byte>, needle: seq<Byte>, s: nat, number: nat): seq<Hit>
    requires s <= |c|
    decreases |c| - s
  {
    if s == |c| then []
    else
      var e := LineEnd(c, s);
      var p := FirstFrom(c, needle, s, e);
      (if p.Some? then [Hit(number, s, p.value - s)] else []) +
      if e < |c| then HitsFrom(c, needle, e + 1, number + 1) else []
  }

  function Hits(c: seq<Byte>, needle: seq<Byte>): seq<Hit> {
    HitsFrom(c, needle, 0, 1)
  }

  lemma AtInSlice(c: seq<Byte>, s: nat, t: nat, needle: seq<Byte>, p: nat)
    requires s <= t <= |c| && p + |needle| <= t - s
    ensures At(c[s..t], needle, p) <==> At(c, needle, s + p)
  {
    var a, b := c[s..t][p..p + |needle|], c[s + p..s + p + |needle|];
    assert |a| == |b| && forall k :: 0 <= k < |a| ==> a[k] == b[k];
  }

  /** An occurrence of a one-line text does not reach the carriage return. */
  lemma WithinTrimmed(c: seq<Byte>, needle: seq<Byte>, s: nat, p: nat)
    requires s <= |c| && OneLine(needle) && s <= p && p + |needle| <= LineEnd(c, s) && At(c, needle, p)
    ensures p + |needle| <= Trimmed(c, s, true) <= Trimmed(c, s, false)
  {
    var last := p + |needle| - 1;
    assert c[p..p + |needle|][|needle| - 1] == c[last];
    assert needle[|needle| - 1] in needle;
  }

  lemma SameFirst(c: seq<Byte>, needle: seq<Byte>, s: nat, always: bool)
    requires s <= |c| && OneLine(needle)
    ensures var line := c[s..Trimmed(c, s, always)];
            var p, q := FirstFrom(line, needle, 0, |line|), FirstFrom(c, needle, s, LineEnd(c, s));
            (p.Some? <==> q.Some?) && (q.Some? ==> q.value == s + p.value)
  {
    var t := Trimmed(c, s, always);
    var line := c[s..t];
    var p, q := FirstFrom(line, needle, 0, |line|), FirstFrom(c, needle, s, LineEnd(c, s));
    if p.Some? {
      AtInSlice(c, s, t, needle, p.value);
    }
    if q.Some? {
      WithinTrimmed(c, needle, s, q.value);
      AtInSlice(c, s, t, needle, q.value - s);
    }
    hide FirstFrom, LineEnd, Trimmed, OneLine, At;
  }

  lemma LinesCons(c: seq<Byte>, s: nat)
    requires s < |c|
    ensures LineEnd(c, s) < |c| ==> LinesFrom(c, s) == [c[s..Trimmed(c, s, false)]] + LinesFrom(c, LineEnd(c, s) + 1)
    ensures LineEnd(c, s) == |c| ==> LinesFrom(c, s) == [c[s..Trimmed(c, s, false)]] + []
  {
  }

  function HitIn(c: seq<Byte>, needle: seq<Byte>, s: nat, number: nat): seq<Hit>
    requires s <= |c|
  {
    var p := FirstFrom(c, needle, s, LineEnd(c, s));
    if p.Some? then [Hit(number, s, p.value - s)] else []
  }

  lemma HitsCons(c: seq<Byte>, needle: seq<Byte>, s: nat, number: nat)
    requires s < |c|
    ensures LineEnd(c, s) < |c| ==>
            HitsFrom(c, needle, s, number) ==
            HitIn(c, needle, s, number) + HitsFrom(c, needle, LineEnd(c, s) + 1, number + 1)
    ensures LineEnd(c, s) == |c| ==> HitsFrom(c, needle, s, number) == HitIn(c, needle, s, number) + []
  {
  }

  function PlaceIn(line: seq<Byte>, needle: seq<Byte>, number: nat): seq<(nat, nat)> {
    var p := FirstFrom(line, needle, 0, |line|);
    if p.Some? then [(number, p.value)] else []
  }

  lemma PlaceOfHit(c: seq<Byte>, needle: seq<Byte>, s: nat, number: nat)
    requires s <= |c| && OneLine(needle)
    ensures Places(HitIn(c, needle, s, number)) == PlaceIn(c[s..Trimmed(c, s, false)], needle, number)
  {
    SameFirst(c, needle, s, false);
    hide FirstFrom, OneLine, Trimmed, LineEnd, At;
  }

  lemma HitsStep(c: seq<Byte>, needle: seq<Byte>, s: nat, number: nat)
    requires s < |c| && OneLine(needle)
    requires LineEnd(c, s) < |c| ==>
             Places(HitsFrom(c, needle, LineEnd(c, s) + 1, number + 1)) ==
               SearchLines(LinesFrom(c, LineEnd(c, s) + 1), needle, number + 1)
    ensures Places(HitsFrom(c, needle, s, number)) == SearchLines(LinesFrom(c, s), needle, number)
  {
    assert SearchLines([], needle, number + 1) == [];
    assert Places([]) == [];
    hide *;
    var rest := if LineEnd(c, s) < |c| then LinesFrom(c, LineEnd(c, s) + 1) else [];
    var hits := if LineEnd(c, s) < |c| then HitsFrom(c, needle, LineEnd(c, s) + 1, number + 1) else [];
    LinesCons(c, s);
    HitsCons(c, needle, s, number);
    PlaceOfHit(c, needle, s, number);
    SearchCons(c[s..Trimmed(c, s, false)], rest, needle, number);
    PlacesConcat(HitIn(c, needle, s, number), hits);
  }

  lemma PlacesConcat(a: seq<Hit>, b: seq<Hit>)
    ensures Places(a + b) == Places(a) + Places(b)
  {
  }

  lemma HitsBase(c: seq<Byte>, needle: seq<Byte>, number: nat)
    ensures Places(HitsFrom(c, needle, |c|, number)) == SearchLines(LinesFrom(c, |c|), needle, number)
  {
  }

  /** Searching by offsets is searching line by line. */
  lemma {:induction false} HitsAreSearch(c: seq<Byte>, needle: seq<Byte>, s: nat, number: nat)
    requires s <= |c| && OneLine(needle)
    ensures Places(HitsFrom(c, needle, s, number)) == SearchLines(LinesFrom(c, s), needle, number)
    decreases |c| - s
  {
    hide *;
    if s == |c| {
      HitsBase(c, needle, number);
    } else {
      if LineEnd(c, s) < |c| {
        HitsAreSearch(c, needle, LineEnd(c, s) + 1, number + 1);
      }
      HitsStep(c, needle, s, number);
    }
  }

  lemma SearchCons(line: seq<Byte>, rest: seq<seq<Byte>>, needle: seq<Byte>, number: nat)
    ensures SearchLines([line] + rest, needle, number) ==
            PlaceIn(line, needle, number) + SearchLines(rest, needle, number + 1)
  {
    assert ([line] + rest)[1..] == rest;
  }

  // ------------------------------------------------------------ a moving cursor

  /** What is left to report when the cursor is on the line at `s`: all of it, or only the lines after it. */
  function Rest(c: seq<Byte>, needle: seq<Byte>, s: nat, number: nat, done: bool): seq<Hit>
    requires s <= |c|
  {
    if !done then HitsFrom(c, needle, s, number)
    else if LineEnd(c, s) < |c| then HitsFrom(c, needle, LineEnd(c, s) + 1, number + 1)
    else []
  }

  /** Occurrences still matter only from `from` on. */
  ghost predicate NothingMissed(c: seq<Byte>, needle: seq<Byte>, s: nat, done: bool, from: nat)
    requires s <= |c|
  {
    && from <= |c|
    && (done ==> from <= LineEnd(c, s))
    && (!done ==> forall p :: s <= p < from ==> !At(c, needle, p))
  }

  /** The cursor moves to the next line: the one it leaves has nothing more to report. */
  lemma NextLine(c: seq<Byte>, needle: seq<Byte>, s: nat, number: nat, done: bool, from: nat, pos: nat)
    requires s <= |c| && NothingMissed(c, needle, s, done, from) && OneLine(needle)
    requires from <= pos < |c| && (forall p :: from <= p < pos ==> !At(c, needle, p))
    requires LineEnd(c, s) < pos
    ensures Rest(c, needle, s, number, done) == Rest(c, needle, LineEnd(c, s) + 1, number + 1, false)
    ensures forall p :: LineEnd(c, s) + 1 <= p < pos ==> !At(c, needle, p)
  {
    if !done {
      assert FirstFrom(c, needle, s, LineEnd(c, s)) == None;
    }
    hide At;
  }

  /** The occurrence found is the first in its line. */
  lemma FoundInLine(c: seq<Byte>, needle: seq<Byte>, s: nat, number: nat, pos: nat)
    requires s <= pos < |c| && OneLine(needle) && At(c, needle, pos) && pos <= LineEnd(c, s)
    requires forall p :: s <= p < pos ==> !At(c, needle, p)
    ensures pos + |needle| <= LineEnd(c, s)
    ensures Rest(c, needle, s, number, false) == [Hit(number, s, pos - s)] + Rest(c, needle, s, number, true)
  {
    EndsInLine(c, needle, s, pos);
    assert FirstFrom(c, needle, s, LineEnd(c, s)) == Some(pos);
    hide At;
  }

  lemma EndsInLine(c: seq<Byte>, needle: seq<Byte>, s: nat, pos: nat)
    requires s <= |c| && s <= pos <= LineEnd(c, s) && OneLine(needle) && At(c, needle, pos)
    ensures pos + |needle| <= LineEnd(c, s)
  {
    forall i | pos <= i < pos + |needle|
      ensures c[i] != LF
    {
      assert c[i] == c[pos..pos + |needle|][i - pos] == needle[i - pos];
      assert needle[i - pos] in needle;
    }
  }

  lemma {:induction false} NoneLeft(c: seq<Byte>, needle: seq<Byte>, s: nat, number: nat)
    requires s <= |c| && forall p :: s <= p && p + |needle| <= |c| ==> !At(c, needle, p)
    ensures HitsFrom(c, needle, s, number) == []
    decreases |c| - s
  {
    if s < |c| {
      var e := LineEnd(c, s);
      assert FirstFrom(c, needle, s, e) == None;
      if e < |c| {
        NoneLeft(c, needle, e + 1, number + 1);
      }
    }
  }

  lemma NothingRemains(c: seq<Byte>, needle: seq<Byte>, s: nat, number: nat, done: bool, from: nat)
    requires s <= |c| && NothingMissed(c, needle, s, done, from)
    requires forall p :: from <= p && p + |needle| <= |c| ==> !At(c, needle, p)
    ensures Rest(c, needle, s, number, done) == []
  {
    if !done {
      NoneLeft(c, needle, s, number);
    } else if LineEnd(c, s) < |c| {
      NoneLeft(c, needle, LineEnd(c, s) + 1, number + 1);
    }
  }

  // ----------------------------------------------------------- the literal scan

  /** What a match reports: line number, line text, and the span in it. */
  datatype Match = Match(line: nat, text: seq<Byte>, start: nat, end: nat)

  /** The report on a hit: the text of its line, a carriage return cut off even at the end of the file. */
  function MatchAt(c: seq<Byte>, h: Hit, length: nat): Match {
    Match(h.line, if h.start <= |c| then c[h.start..Trimmed(c, h.start, true)] else [], h.column, h.column + length)
  }

  function MatchesAt(c: seq<Byte>, hits: seq<Hit>, length: nat): (r: seq<Match>)
    ensures |r| == |hits| && forall i :: 0 <= i < |hits| ==> r[i] == MatchAt(c, hits[i], length)
  {
    seq(|hits|, i requires 0 <= i < |hits| => MatchAt(c, hits[i], length))
  }

  lemma MatchesSnoc(c: seq<Byte>, hits: seq<Hit>, h: Hit, length: nat)
    ensures MatchesAt(c, hits + [h], length) == MatchesAt(c, hits, length) + [MatchAt(c, h, length)]
  {
  }

  /** The cursor and what was reported so far, against the whole report. */
  ghost predicate Following(c: seq<Byte>, needle: seq<Byte>, s: nat, number: nat, done: bool, from: nat,
      found: seq<Hit>) {
    && s <= |c|
    && NothingMissed(c, needle, s, done, from)
    && Hits(c, needle) == found + Rest(c, needle, s, number, done)
  }

  lemma FollowNextLine(c: seq<Byte>, needle: seq<Byte>, s: nat, number: nat, done: bool, from: nat, pos: nat,
      found: seq<Hit>)
    requires Following(c, needle, s, number, done, from, found) && OneLine(needle)
    requires from <= pos < |c| && (forall p :: from <= p < pos ==> !At(c, needle, p))
    requires LineEnd(c, s) < pos
    ensures Following(c, needle, LineEnd(c, s) + 1, number + 1, false, pos, found)
  {
    NextLine(c, needle, s, number, done, from, pos);
  }

  /** Within a line already reported, the search just goes on. */
  lemma FollowSkips(c: seq<Byte>, needle: seq<Byte>, s: nat, number: nat, from: nat, pos: nat, found: seq<Hit>)
    requires Following(c, needle, s, number, true, from, found) && OneLine(needle)
    requires s <= pos <= LineEnd(c, s) && At(c, needle, pos)
    ensures Following(c, needle, s, number, true, pos + |needle|, found)
  {
    EndsInLine(c, needle, s, pos);
  }

  lemma FollowFinds(c: seq<Byte>, needle: seq<Byte>, s: nat, number: nat, from: nat, pos: nat, found: seq<Hit>)
    requires Following(c, needle, s, number, false, from, found) && OneLine(needle)
    requires s <= pos < |c| && from <= pos <= LineEnd(c, s) && At(c, needle, pos)
    requires forall p :: from <= p < pos ==> !At(c, needle, p)
    ensures Following(c, needle, s, number, true, pos + |needle|, found + [Hit(number, s, pos - s)])
  {
    FoundInLine(c, needle, s, number, pos);
    hide At, LineEnd;
    assert found + ([Hit(number, s, pos - s)] + Rest(c, needle, s, number, true)) ==
           (found + [Hit(number, s, pos - s)]) + Rest(c, needle, s, number, true);
  }

  lemma FollowStays(c: seq<Byte>, needle: seq<Byte>, s: nat, number: nat, done: bool, from: nat, pos: nat,
      found: seq<Hit>)
    requires Following(c, needle, s, number, done, from, found)
    requires from <= pos <= |c| && (forall p :: from <= p < pos ==> !At(c, needle, p))
    requires (done ==> pos <= LineEnd(c, s))
    ensures Following(c, needle, s, number, done, pos, found)
  {
  }

  /** Moves the cursor to the line of `pos`. */
  method AdvanceTo(c: seq<Byte>, needle: seq<Byte>, s0: nat, n0: nat, ghost done0: bool, ghost from: nat, pos: nat,
      ghost found: seq<Hit>)
    returns (s: nat, number: nat, ghost done: bool)
    requires Following(c, needle, s0, n0, done0, from, found) && OneLine(needle)
    requires s0 <= pos && from <= pos < |c| && (forall p :: from <= p < pos ==> !At(c, needle, p))
    ensures Following(c, needle, s, number, done, pos, found) && s <= pos <= LineEnd(c, s)
    ensures number >= n0 && done == (done0 && number == n0)
  {
    hide Following, At, OneLine, HitsFrom;
    s, number, done := s0, n0, done0;
    ghost var at: nat := from;
    InText(c, needle, s, number, done, at, found);
    while LineEnd(c, s) < pos
      invariant s <= pos < |c| && at <= pos && number >= n0 && done == (done0 && number == n0)
      invariant Following(c, needle, s, number, done, at, found)
      invariant forall p :: at <= p < pos ==> !At(c, needle, p)
      decreases |c| - s
    {
      FollowNextLine(c, needle, s, number, done, at, pos, found);
      s, number, done := LineEnd(c, s) + 1, number + 1, false;
      at := pos;
    }
    FollowStays(c, needle, s, number, done, at, pos, found);
  }

  lemma InText(c: seq<Byte>, needle: seq<Byte>, s: nat, number: nat, done: bool, from: nat, found: seq<Hit>)
    requires Following(c, needle, s, number, done, from, found)
    ensures s <= |c| && from <= |c|
  {
  }

  lemma Finishes(c: seq<Byte>, needle: seq<Byte>, s: nat, number: nat, done: bool, from: nat, found: seq<Hit>)
    requires Following(c, needle, s, number, done, from, found)
    requires forall p :: from <= p && p + |needle| <= |c| ==> !At(c, needle, p)
    ensures found == Hits(c, needle)
  {
    NothingRemains(c, needle, s, number, done, from);
  }

  lemma Begins(c: seq<Byte>, needle: seq<Byte>)
    ensures Following(c, needle, 0, 1, false, 0, [])
  {
    hide LineEnd, At, FirstFrom;
    var all := Hits(c, needle);
    assert all == Rest(c, needle, 0, 1, false);
    assert all == [] + all;
  }

  /** How many line feeds come before an offset. */
  function LfBefore(c: seq<Byte>, n: nat): nat
    requires n <= |c|
  {
    if n == 0 then 0 else LfBefore(c, n - 1) + if c[n - 1] == LF then 1 else 0
  }

  /** Line `number` starts at `s`. */
  ghost predicate StartsLine(c: seq<Byte>, s: nat, number: nat) {
    && s <= |c|
    && (s == 0 || c[s - 1] == LF)
    && number == LfBefore(c, s) + 1
  }

  lemma {:induction false} SameCount(c: seq<Byte>, s: nat, e: nat)
    requires s <= e <= |c| && forall i :: s <= i < e ==> c[i] != LF
    ensures LfBefore(c, s) == LfBefore(c, e)
    decreases e
  {
    if s < e {
      SameCount(c, s, e - 1);
    }
  }

  lemma NextStarts(c: seq<Byte>, s: nat, number: nat)
    requires StartsLine(c, s, number) && LineEnd(c, s) < |c|
    ensures StartsLine(c, LineEnd(c, s) + 1, number + 1)
  {
    SameCount(c, s, LineEnd(c, s));
  }

  lemma {:induction false} CountGrows(c: seq<Byte>, s: nat, e: nat)
    requires s <= e <= |c|
    ensures LfBefore(c, s) <= LfBefore(c, e)
    ensures s < e && c[s] == LF ==> LfBefore(c, s) < LfBefore(c, e)
    decreases e
  {
    if s < e {
      CountGrows(c, s, e - 1);
    }
  }

  lemma NextLineStart(c: seq<Byte>, from: nat, s: nat)
    requires from < s < |c| && c[s - 1] == LF
    ensures LineEnd(c, from) + 1 <= s
    ensures LfBefore(c, LineEnd(c, from) + 1) == LfBefore(c, from) + 1 <= LfBefore(c, s)
  {
    SameCount(c, from, LineEnd(c, from));
    CountGrows(c, LineEnd(c, from) + 1, s);
  }

  /** The lines of a text, by number. */
  lemma {:induction false} LineFrom(c: seq<Byte>, from: nat, s: nat)
    requires from <= s < |c| && (s == from || c[s - 1] == LF)
    ensures LfBefore(c, from) <= LfBefore(c, s)
    ensures var k := LfBefore(c, s) - LfBefore(c, from);
            k < |LinesFrom(c, from)| && LinesFrom(c, from)[k] == c[s..Trimmed(c, s, false)]
    decreases |c| - from
  {
    LinesCons(c, from);
    hide LinesFrom, Trimmed;
    if from < s {
      NextLineStart(c, from, s);
      LineFrom(c, LineEnd(c, from) + 1, s);
    }
  }

  lemma NoHitsAtEnd(c: seq<Byte>, needle: seq<Byte>, s: nat, number: nat)
    requires s <= |c|
    ensures s == |c| ==> HitsFrom(c, needle, s, number) == []
  {
  }

  lemma HitInIs(c: seq<Byte>, needle: seq<Byte>, s: nat, number: nat)
    requires s <= |c|
    ensures HitIn(c, needle, s, number) != [] ==> |HitIn(c, needle, s, number)| == 1
    ensures HitIn(c, needle, s, number) != [] ==>
            HitIn(c, needle, s, number)[0].start == s && HitIn(c, needle, s, number)[0].line == number
  {
  }

  lemma NoneBefore(c: seq<Byte>)
    ensures LfBefore(c, 0) == 0
  {
  }

  /** Every hit knows the line it is on. */
  lemma {:induction false} HitStarts(c: seq<Byte>, needle: seq<Byte>, s: nat, number: nat, i: nat)
    requires s <= |c| && StartsLine(c, s, number) && i < |HitsFrom(c, needle, s, number)|
    ensures var h := HitsFrom(c, needle, s, number)[i];
            StartsLine(c, h.start, h.line) && h.start < |c|
    decreases |c| - s
  {
    hide HitsFrom, StartsLine, FirstFrom, HitIn;
    NoHitsAtEnd(c, needle, s, number);
    HitsCons(c, needle, s, number);
    HitInIs(c, needle, s, number);
    var here := HitIn(c, needle, s, number);
    if i >= |here| {
      NextStarts(c, s, number);
      HitStarts(c, needle, LineEnd(c, s) + 1, number + 1, i - |here|);
    }
  }

  /**
    The text a hit reports is its line's text, and it is not exactly when the line
    ends the file in a carriage return without a line feed.
  */
  lemma ReportedText(c: seq<Byte>, h: Hit, length: nat)
    requires StartsLine(c, h.start, h.line) && h.start < |c|
    ensures 1 <= h.line <= |Lines(c)|
    ensures MatchAt(c, h, length).text == Lines(c)[h.line - 1] <==> !(LineEnd(c, h.start) == |c| && c[|c| - 1] == CR)
  {
    hide LinesFrom, LfBefore;
    LineFrom(c, 0, h.start);
    assert LfBefore(c, 0) == 0 by { NoneBefore(c); }
    assert |c[h.start..Trimmed(c, h.start, true)]| == Trimmed(c, h.start, true) - h.start;
    assert |c[h.start..Trimmed(c, h.start, false)]| == Trimmed(c, h.start, false) - h.start;
  }

  method TextOf(c: seq<Byte>, s: nat) returns (text: seq<Byte>)
    requires s <= |c|
    ensures text == c[s..Trimmed(c, s, true)]
  {
    var lineEnd := LineEnd(c, s);
    if lineEnd > s && c[lineEnd - 1] == CR {
      lineEnd := lineEnd - 1;
    }
    text := c[s..lineEnd];
  }

  /**
    The single-pass scan over lowered text: the first occurrence in every line
    that has one, and nothing else.
  */
  method ScanLiteral(content: seq<Byte>, needle: seq<Byte>) returns (matches: seq<Match>)
    requires OneLine(LowerBytes(needle))
    ensures matches == MatchesAt(content, Hits(LowerBytes(content), LowerBytes(needle)), |needle|)
  {
    var lower, n := LowerBytes(content), LowerBytes(needle);
    hide Following, At, OneLine, LowerBytes, HitsFrom, Hits, Trimmed;
    ghost var found: seq<Hit> := [];
    matches := [];
    var lineStart: nat, lineNum: nat, lastMatchedLine: nat := 0, 1, 0;
    ghost var done := false;
    var from: nat := 0;
    Begins(lower, n);
    var next := FirstFrom(lower, n, from, |lower|);
    while next.Some?
      invariant from <= |lower| && next == FirstFrom(lower, n, from, |lower|)
      invariant lastMatchedLine <= lineNum && done == (lastMatchedLine == lineNum)
      invariant next.Some? ==> lineStart <= next.value
      invariant Following(lower, n, lineStart, lineNum, done, from, found)
      invariant matches == MatchesAt(content, found, |needle|)
      decreases |lower| - from
    {
      var pos := next.value;
      NonEmpty(n);
      lineStart, lineNum, done := AdvanceTo(lower, n, lineStart, lineNum, done, from, pos, found);
      if lineNum == lastMatchedLine {
        FollowSkips(lower, n, lineStart, lineNum, pos, pos, found);
      } else {
        lastMatchedLine := lineNum;
        var text := TextOf(content, lineStart);
        var col := pos - lineStart;
        FollowFinds(lower, n, lineStart, lineNum, pos, pos, found);
        MatchesSnoc(content, found, Hit(lineNum, lineStart, col), |needle|);
        matches := matches + [Match(lineNum, text, col, col + |needle|)];
        found := found + [Hit(lineNum, lineStart, col)];
        done := true;
      }
      from := pos + |n|;
      next := FirstFrom(lower, n, from, |lower|);
    }
    Finishes(lower, n, lineStart, lineNum, done, from, found);
  }

  lemma NonEmpty(needle: seq<Byte>)
    requires OneLine(needle)
    ensures |needle| > 0
  {
  }

  /** Lowering moves no line. */
  lemma {:induction false} SameLineEnds(c: seq<Byte>, s: nat)
    requires s <= |c|
    ensures LineEnd(LowerBytes(c), s) == LineEnd(c, s)
    decreases |c| - s
  {
    if s < |c| {
      SameLineEnds(c, s + 1);
    }
  }

  lemma {:induction false} SameLfCount(c: seq<Byte>, n: nat)
    requires n <= |c|
    ensures LfBefore(LowerBytes(c), n) == LfBefore(c, n)
  {
    if n > 0 {
      SameLfCount(c, n - 1);
    }
  }
}
