/**
  Line maps: where lines start (src/index/build.rs:126-141), the line of an
  offset (src/index/reader.rs:545-556), and the maps on disk
  (src/index/segment_io.rs:159-184, src/index/writer.rs:614-643,
  src/index/reader.rs:1040-1080).
*/
module LineMap {
  import opened Prelude
  import opened Sorting
  import opened Text
  import opened Index
  import opened Encoding
  import opened Bytes
  import opened SegmentFile

  /** Line breaks among the first `n` bytes. */
  function Breaks(content: seq<Byte>, n: nat): nat
    requires n <= |content|
  {
    if n == 0 then 0 else Breaks(content, n - 1) + if content[n - 1] == LF then 1 else 0
  }

  /** Line starts up to `n`: a final line break starts no line. */
  function LineStarts(content: seq<Byte>, n: nat): seq<nat>
    requires n <= |content|
  {
    if n == 0 then [0]
    else LineStarts(content, n - 1) + if content[n - 1] == LF && n < |content| then [n] else []
  }

  method BuildLineMap(content: seq<Byte>) returns (offsets: seq<nat>)
    ensures offsets == LineStarts(content, |content|)
  {
    offsets := [0];
    var pos := 0;
    while pos < |content|
      invariant 0 <= pos <= |content| && offsets == LineStarts(content, pos)
    {
      if content[pos] == LF && pos + 1 < |content| {
        offsets := offsets + [pos + 1];
      }
      pos := pos + 1;
    }
  }

  lemma {:induction false} StartsCount(content: seq<Byte>, n: nat)
    requires n <= |content|
    ensures |LineStarts(content, n)| == 1 + Breaks(content, if n < |content| then n else if n == 0 then 0 else n - 1)
    ensures Ascending(LineStarts(content, n)) && forall x :: x in LineStarts(content, n) ==> x <= n
  {
    if n > 0 {
      StartsCount(content, n - 1);
      var before := LineStarts(content, n - 1);
      assert forall i :: 0 <= i < |before| ==> before[i] in before;
    }
  }

  lemma {:induction false} LaterStarts(content: seq<Byte>, n: nat, m: nat)
    requires n <= m <= |content|
    ensures LineStarts(content, n) <= LineStarts(content, m)
    ensures forall i :: |LineStarts(content, n)| <= i < |LineStarts(content, m)| ==> LineStarts(content, m)[i] > n
    decreases m
  {
    if n < m {
      LaterStarts(content, n, m - 1);
    }
  }

  /** The line of an offset: one more than the line breaks before it, those of the last line at most. */
  function LineAt(content: seq<Byte>, offset: nat): nat {
    1 + Breaks(content, if offset < |content| then offset else if content == [] then 0 else |content| - 1)
  }

  lemma StartsUpTo(content: seq<Byte>, offset: nat)
    ensures var starts := LineStarts(content, |content|);
            && LineAt(content, offset) <= |starts| && Ascending(starts)
            && (forall i :: 0 <= i < LineAt(content, offset) ==> starts[i] <= offset)
            && (forall i :: LineAt(content, offset) <= i < |starts| ==> starts[i] > offset)
  {
    var n := if offset < |content| then offset else |content|;
    StartsCount(content, n);
    StartsCount(content, |content|);
    LaterStarts(content, n, |content|);
    var upTo, starts := LineStarts(content, n), LineStarts(content, |content|);
    hide LineStarts, Breaks;
    forall i | 0 <= i < |upTo|
      ensures starts[i] <= offset
    {
      assert starts[i] == upTo[i] && upTo[i] in upTo;
    }
  }

  /** `offset_to_line`: `Ok(i)` is line i + 1, `Err(i)` is line i; a missing map is line 1. */
  method OffsetToLine(lineMap: Option<seq<nat>>, offset: nat, ghost content: seq<Byte>) returns (line: nat)
    requires lineMap.Some? ==> lineMap.value == LineStarts(content, |content|)
    ensures line == if lineMap.Some? then LineAt(content, offset) else 1
  {
    if lineMap.None? {
      return 1;
    }
    StartsUpTo(content, offset);
    hide LineStarts, LineAt;
    var le := (x: int, y: int) => x <= y;
    var starts: seq<int> := lineMap.value;
    assert TotalOrder(le) && SortedBy(le, starts);
    var found, i := BinarySearch(le, starts, offset);
    line := if found then i + 1 else i;
    ghost var n := LineAt(content, offset);
    Pinned(starts, offset, n, found, i, le);
  }

  lemma Pinned(starts: seq<int>, offset: int, n: nat, found: bool, i: nat, le: (int, int) -> bool)
    requires n <= |starts| && Ascending(starts) && i <= |starts|
    requires forall x, y :: le(x, y) <==> x <= y
    requires forall k :: 0 <= k < n ==> starts[k] <= offset
    requires forall k :: n <= k < |starts| ==> starts[k] > offset
    requires found ==> i < |starts| && le(starts[i], offset) && le(offset, starts[i])
    requires !found ==> forall k :: 0 <= k < i ==> !le(offset, starts[k])
    requires !found ==> forall k :: i <= k < |starts| ==> !le(starts[k], offset)
    ensures n == if found then i + 1 else i
  {
    var m := if found then i + 1 else i;
    forall k | 0 <= k < |starts|
      ensures k < m <==> starts[k] <= offset
    {
      if !found && k < i {
        assert !le(offset, starts[k]);
      }
      if !found && i <= k {
        assert !le(starts[k], offset);
      }
    }
    assert n < |starts| ==> (n < m <==> starts[n] <= offset);
    assert m < |starts| ==> (m < n <==> starts[m] <= offset);
  }

  /** The answer is the true line except past a final line break, where it is the line before. */
  lemma TrueLine(content: seq<Byte>, offset: nat)
    requires offset <= |content|
    ensures LineAt(content, offset) == 1 + Breaks(content, offset) <==>
            !(offset == |content| && content != [] && content[|content| - 1] == LF)
  {
  }

  // -------------------------------------------------------------------- on disk

  /** A document's line map as the list of its starts. */
  datatype LineRow = LineRow(doc: DocId, offsets: seq<nat>)

  predicate RowOk(r: LineRow) {
    r.doc <= U32_MAX && Storable(r.offsets) && |r.offsets| <= U32_MAX && |PostingBytes(r.offsets)| <= U32_MAX
  }

  ghost predicate RowsOk(rows: seq<LineRow>) {
    && |rows| <= U32_MAX
    && (forall i :: 0 <= i < |rows| ==> RowOk(rows[i]))
    && (forall i, j :: 0 <= i < j < |rows| ==> rows[i].doc != rows[j].doc)
  }

  function RowBytes(r: LineRow): seq<Byte>
    requires Storable(r.offsets)
  {
    LittleEndian(r.doc, 4) +
      (LittleEndian(|r.offsets|, 4) + (LittleEndian(|PostingBytes(r.offsets)|, 4) + PostingBytes(r.offsets)))
  }

  /** Rows from `k` on, end to end. */
  function RowsBytes(rows: seq<LineRow>, k: nat): seq<Byte>
    requires k <= |rows| && forall i :: 0 <= i < |rows| ==> Storable(rows[i].offsets)
    decreases |rows| - k
  {
    if k == |rows| then [] else RowBytes(rows[k]) + RowsBytes(rows, k + 1)
  }

  function LineMapFile(rows: seq<LineRow>): seq<Byte>
    requires forall i :: 0 <= i < |rows| ==> Storable(rows[i].offsets)
  {
    LittleEndian(|rows|, 4) + RowsBytes(rows, 0)
  }

  /** The first `n` rows as a map. */
  function MapOf(rows: seq<LineRow>, n: nat): map<DocId, seq<nat>>
    requires n <= |rows|
  {
    if n == 0 then map[] else MapOf(rows, n - 1)[rows[n - 1].doc := rows[n - 1].offsets]
  }

  method WriteLineMaps(rows: seq<LineRow>) returns (b: seq<Byte>)
    requires forall i :: 0 <= i < |rows| ==> Storable(rows[i].offsets)
    ensures b == LineMapFile(rows)
  {
    b := LittleEndian(|rows|, 4);
    var k := 0;
    while k < |rows|
      invariant 0 <= k <= |rows| && LineMapFile(rows) == b + RowsBytes(rows, k)
    {
      hide LineMapFile, LittleEndian, Storable;
      StorableSorted(rows[k].offsets);
      var encoded := EncodeDocs(rows[k].offsets);
      var row := LittleEndian(rows[k].doc, 4) +
        (LittleEndian(|rows[k].offsets|, 4) + (LittleEndian(|encoded|, 4) + encoded));
      assert row == RowBytes(rows[k]);
      hide RowBytes;
      assert b + (row + RowsBytes(rows, k + 1)) == (b + row) + RowsBytes(rows, k + 1);
      b := b + row;
      k := k + 1;
    }
    assert b + [] == b;
  }

  /** What the reader makes of the rest of a file. */
  function ReadRows(b: seq<Byte>, pos: nat, count: nat, found: map<DocId, seq<nat>>): Option<map<DocId, seq<nat>>>
    decreases count
  {
    if count == 0 then Some(found)
    else if pos + 12 > |b| || pos + 12 + NumberAt(b, pos + 8, 4) > |b| then None
    else
      var end := pos + 12 + NumberAt(b, pos + 8, 4);
      ReadRows(b, end, count - 1, found[NumberAt(b, pos, 4) := DecodeDeltas(b[pos + 12..end], 0, 0)])
  }

  function ReadMaps(b: seq<Byte>): Option<map<DocId, seq<nat>>> {
    if |b| < 4 then None else ReadRows(b, 4, NumberAt(b, 0, 4), map[])
  }

  method ReadLineMaps(b: seq<Byte>) returns (r: Option<map<DocId, seq<nat>>>)
    ensures r == ReadMaps(b)
  {
    if |b| < 4 {
      return None;
    }
    hide NumberAt, DecodeDeltas;
    var count := NumberAt(b, 0, 4);
    var lineMaps: map<DocId, seq<nat>> := map[];
    var pos, i := 4, 0;
    while i < count
      invariant 0 <= i <= count && ReadMaps(b) == ReadRows(b, pos, count - i, lineMaps)
    {
      if pos + 12 > |b| {
        return None;
      }
      var end := pos + 12 + NumberAt(b, pos + 8, 4);
      if end > |b| {
        return None;
      }
      var offsets := DeltaDecode(b[pos + 12..end]);
      lineMaps := lineMaps[NumberAt(b, pos, 4) := offsets];
      pos := end;
      i := i + 1;
    }
    r := Some(lineMaps);
  }

  lemma RowHeld(r: LineRow, b: seq<Byte>, pos: nat)
    requires RowOk(r) && Holds(b, pos, RowBytes(r))
    ensures var end := pos + |RowBytes(r)|;
            && pos + 12 <= |b| && end <= |b| && end == pos + 12 + NumberAt(b, pos + 8, 4)
            && NumberAt(b, pos, 4) == r.doc && DecodeDeltas(b[pos + 12..end], 0, 0) == r.offsets
  {
    var w, x, enc := LittleEndian(r.doc, 4), LittleEndian(|r.offsets|, 4), PostingBytes(r.offsets);
    var y := LittleEndian(|enc|, 4);
    assert RowBytes(r) == w + (x + (y + enc));
    Widths();
    PostingsDecode(r.offsets, enc);
    hide RowBytes, LittleEndian, NumberAt, PostingBytes, DecodeDeltas, Storable;
    HoldsParts(b, pos, w, x + (y + enc));
    HoldsParts(b, pos + 4, x, y + enc);
    HoldsParts(b, pos + 8, y, enc);
    NumberHeld(b, pos, r.doc, 4);
    NumberHeld(b, pos + 8, |enc|, 4);
    assert b[pos + 12..pos + 12 + |enc|] == enc;
  }

  lemma {:induction false} RowsHeld(rows: seq<LineRow>, k: nat, b: seq<Byte>, pos: nat)
    requires RowsOk(rows) && k <= |rows| && (forall i :: 0 <= i < |rows| ==> Storable(rows[i].offsets))
    requires Holds(b, pos, RowsBytes(rows, k))
    ensures ReadRows(b, pos, |rows| - k, MapOf(rows, k)) == Some(MapOf(rows, |rows|))
    decreases |rows| - k
  {
    if k == |rows| {
      assert ReadRows(b, pos, 0, MapOf(rows, k)) == Some(MapOf(rows, k));
    } else {
      HoldsParts(b, pos, RowBytes(rows[k]), RowsBytes(rows, k + 1));
      assert RowOk(rows[k]);
      var end := pos + |RowBytes(rows[k])|;
      hide *;
      RowHeld(rows[k], b, pos);
      RowsHeld(rows, k + 1, b, end);
      NextRow(b, pos, |rows| - k, MapOf(rows, k), rows[k], end);
      MapStep(rows, k);
    }
  }

  lemma MapStep(rows: seq<LineRow>, k: nat)
    requires k < |rows|
    ensures MapOf(rows, k + 1) == MapOf(rows, k)[rows[k].doc := rows[k].offsets]
  {
  }

  lemma NextRow(b: seq<Byte>, pos: nat, count: nat, found: map<DocId, seq<nat>>, r: LineRow, end: nat)
    requires count > 0 && pos + 12 <= end <= |b| && end == pos + 12 + NumberAt(b, pos + 8, 4)
    requires NumberAt(b, pos, 4) == r.doc && DecodeDeltas(b[pos + 12..end], 0, 0) == r.offsets
    ensures ReadRows(b, pos, count, found) == ReadRows(b, end, count - 1, found[r.doc := r.offsets])
  {
    hide NumberAt, DecodeDeltas;
  }

  /** Line maps come back as they were, in whatever order they were written. */
  lemma LineMapsRoundTrip(rows: seq<LineRow>)
    requires RowsOk(rows) && forall i :: 0 <= i < |rows| ==> Storable(rows[i].offsets)
    ensures ReadMaps(LineMapFile(rows)) == Some(MapOf(rows, |rows|))
  {
    var b := LineMapFile(rows);
    assert Holds(b, 0, LittleEndian(|rows|, 4) + RowsBytes(rows, 0));
    HoldsParts(b, 0, LittleEndian(|rows|, 4), RowsBytes(rows, 0));
    Widths();
    hide Holds, LittleEndian, RowsBytes, NumberAt, LineMapFile, ReadRows;
    NumberHeld(b, 0, |rows|, 4);
    RowsHeld(rows, 0, b, 4);
  }

  lemma {:induction false} MapOfIs(rows: seq<LineRow>, n: nat, d: DocId)
    requires n <= |rows| && forall i, j :: 0 <= i < j < |rows| ==> rows[i].doc != rows[j].doc
    ensures d in MapOf(rows, n) <==> exists i :: 0 <= i < n && rows[i].doc == d
    ensures forall i :: 0 <= i < n ==> rows[i].doc in MapOf(rows, n) && MapOf(rows, n)[rows[i].doc] == rows[i].offsets
    decreases n
  {
    if n > 0 {
      MapOfIs(rows, n - 1, d);
    }
  }

  /** Rows in file order and rows sorted by document read back as the same map. */
  lemma SameLineMaps(rows: seq<LineRow>, sorted: seq<LineRow>)
    requires RowsOk(rows) && multiset(rows) == multiset(sorted) && RowsOk(sorted)
    ensures MapOf(rows, |rows|) == MapOf(sorted, |sorted|)
  {
    SameMembers(rows, sorted);
    hide RowOk;
    forall d: DocId
      ensures d in MapOf(rows, |rows|) ==>
              d in MapOf(sorted, |sorted|) && MapOf(sorted, |sorted|)[d] == MapOf(rows, |rows|)[d]
      ensures d in MapOf(sorted, |sorted|) ==> d in MapOf(rows, |rows|)
    {
      RowIn(rows, sorted, d);
      RowIn(sorted, rows, d);
    }
  }

  lemma RowIn(rows: seq<LineRow>, others: seq<LineRow>, d: DocId)
    requires RowsOk(rows) && RowsOk(others) && forall r :: r in rows ==> r in others
    ensures d in MapOf(rows, |rows|) ==>
            d in MapOf(others, |others|) && MapOf(others, |others|)[d] == MapOf(rows, |rows|)[d]
  {
    hide RowOk;
    MapOfIs(rows, |rows|, d);
    MapOfIs(others, |others|, d);
    hide MapOf;
    if d in MapOf(rows, |rows|) {
      var i :| 0 <= i < |rows| && rows[i].doc == d;
      assert rows[i] in others;
      var j :| 0 <= j < |others| && others[j] == rows[i];
    }
  }
}
