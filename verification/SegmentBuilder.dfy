/**
  The postings a segment holds for a list of files: one entry per document and
  key, inserted file by file (the maps of DeltaSegmentWriter::add_file,
  src/index/writer.rs:953-999).
*/
module SegmentBuilder {
  import opened Prelude
  import opened Index

  /** `d` pushed onto the lists of the first `n` keys. */
  function PushFirst<K>(m: Postings<K>, keys: seq<K>, n: nat, d: DocId): Postings<K>
    requires n <= |keys|
  {
    if n == 0 then m
    else
      var p := PushFirst(m, keys, n - 1, d);
      p[keys[n - 1] := Get(p, keys[n - 1]) + [d]]
  }

  lemma TakeOne<K>(keys: seq<K>, n: nat, k: K)
    requires 0 < n <= |keys| && Distinct(keys)
    ensures k in keys[..n] <==> k in keys[..n - 1] || k == keys[n - 1]
    ensures keys[n - 1] !in keys[..n - 1]
  {
    assert keys[..n] == keys[..n - 1] + [keys[n - 1]];
  }

  lemma {:induction false} PushFirstAt<K>(m: Postings<K>, keys: seq<K>, n: nat, d: DocId, k: K)
    requires n <= |keys| && Distinct(keys)
    ensures Get(PushFirst(m, keys, n, d), k) == Get(m, k) + if k in keys[..n] then [d] else []
    ensures k in PushFirst(m, keys, n, d) <==> k in m || k in keys[..n]
  {
    hide Distinct;
    if n > 0 {
      PushFirstAt(m, keys, n - 1, d, k);
      TakeOne(keys, n, k);
    }
  }

  /** Word positions of each token, over the first `n` occurrences of a file. */
  function GroupFirst(f: ProcessedFile, n: nat): map<Token, seq<nat>>
    requires n <= |f.tokenPositions|
    requires forall k :: 0 <= k < n ==> f.tokenPositions[k].0 < |f.tokens|
  {
    if n == 0 then map[]
    else
      var g := GroupFirst(f, n - 1);
      var t := f.tokens[f.tokenPositions[n - 1].0];
      g[t := (if t in g then g[t] else []) + [f.tokenPositions[n - 1].1]]
  }

  /** Extraction's view of a file: what the index must be able to recall. */
  function DataOf(f: ProcessedFile): FileData
    requires WellFormedFile(f)
  {
    FileData(Elements(f.tokens), GroupFirst(f, |f.tokenPositions|), Some(f.lineOffsets))
  }

  /** The first `n` occurrences of a file entered under document `d`. */
  function PlaceFirst(pm: PositionPostings, f: ProcessedFile, n: nat, d: DocId): PositionPostings
    requires n <= |f.tokenPositions|
    requires forall k :: 0 <= k < n ==> f.tokenPositions[k].0 < |f.tokens|
  {
    if n == 0 then pm
    else
      var g := PlaceFirst(pm, f, n - 1, d);
      var t := f.tokens[f.tokenPositions[n - 1].0];
      var row := Row(g, t);
      g[t := row[d := (if d in row then row[d] else []) + [f.tokenPositions[n - 1].1]]]
  }

  lemma {:induction false} PlaceFirstAt(pm: PositionPostings, f: ProcessedFile, n: nat, d: DocId, t: Token)
    requires n <= |f.tokenPositions|
    requires forall k :: 0 <= k < n ==> f.tokenPositions[k].0 < |f.tokens|
    requires d !in Row(pm, t)
    ensures var g := GroupFirst(f, n);
            Row(PlaceFirst(pm, f, n, d), t) == if t in g then Row(pm, t)[d := g[t]] else Row(pm, t)
    ensures t in PlaceFirst(pm, f, n, d) <==> t in pm || t in GroupFirst(f, n)
  {
    if n > 0 {
      PlaceFirstAt(pm, f, n - 1, d, t);
    }
  }

  function AddToSegment(seg: Segment, d: DocId, f: ProcessedFile): Segment
    requires WellFormedFile(f)
  {
    Segment(
      PushFirst(seg.trigrams, f.trigrams, |f.trigrams|, d),
      PushFirst(seg.tokens, f.tokens, |f.tokens|, d),
      PlaceFirst(seg.positions, f, |f.tokenPositions|, d),
      seg.lineMaps[d := f.lineOffsets])
  }

  lemma PushedKeys<K(!new)>(m: Postings<K>, keys: seq<K>, d: DocId, e: DocId)
    requires Distinct(keys)
    ensures KeysWith(PushFirst(m, keys, |keys|, d), e) == KeysWith(m, e) + if e == d then Elements(keys) else {}
  {
    var p := PushFirst(m, keys, |keys|, d);
    var all := KeysWith(m, e) + if e == d then Elements(keys) else {};
    forall k: K
      ensures k in KeysWith(p, e) <==> k in all
    {
      PushFirstAt(m, keys, |keys|, d, k);
      assert keys[..|keys|] == keys;
      assert k in p ==> p[k] == Get(p, k);
    }
  }

  /** Pushing a larger id keeps every list ascending. */
  lemma PushedAscending<K(!new)>(m: Postings<K>, keys: seq<K>, d: DocId)
    requires Distinct(keys)
    requires forall k :: k in m ==> Ascending(m[k]) && forall e: DocId :: e in m[k] ==> e < d
    ensures forall k :: k in PushFirst(m, keys, |keys|, d) ==> Ascending(PushFirst(m, keys, |keys|, d)[k])
  {
    var p := PushFirst(m, keys, |keys|, d);
    forall k | k in p
      ensures Ascending(p[k])
    {
      PushFirstAt(m, keys, |keys|, d, k);
      assert p[k] == Get(p, k);
      forall i, j | 0 <= i < j < |p[k]|
        ensures p[k][i] < p[k][j]
      {
        if j == |Get(m, k)| { assert Get(m, k)[i] in Get(m, k); }
      }
    }
  }

  lemma PlacedPositions(pm: PositionPostings, f: ProcessedFile, d: DocId, e: DocId)
    requires WellFormedFile(f) && PositionsWith(pm, d) == map[]
    ensures PositionsWith(PlaceFirst(pm, f, |f.tokenPositions|, d), e)
         == if e == d then GroupFirst(f, |f.tokenPositions|) else PositionsWith(pm, e)
  {
    var n := |f.tokenPositions|;
    var p := PlaceFirst(pm, f, n, d);
    var all := if e == d then GroupFirst(f, n) else PositionsWith(pm, e);
    forall t: Token
      ensures t in PositionsWith(p, e) <==> t in all
      ensures t in all ==> PositionsWith(p, e)[t] == all[t]
    {
      assert t !in PositionsWith(pm, d);
      PlaceFirstAt(pm, f, n, d, t);
      assert t in p ==> p[t] == Row(p, t);
      assert t in pm ==> pm[t] == Row(pm, t);
      hide PlaceFirst, GroupFirst;
    }
  }

  /** Adding a file under a new id records exactly that file and disturbs nothing else. */
  lemma AddedData(seg: Segment, d: DocId, f: ProcessedFile, e: DocId)
    requires WellFormedFile(f) && !Mentions(seg, d)
    ensures var s := AddToSegment(seg, d, f);
            && DataIn(s, e) == (if e == d then DataOf(f) else DataIn(seg, e))
            && TrigramsIn(s, e) == (if e == d then Elements(f.trigrams) else TrigramsIn(seg, e))
            && (Mentions(s, e) ==> e == d || Mentions(seg, e))
  {
    var s := AddToSegment(seg, d, f);
    PushedKeys(seg.trigrams, f.trigrams, d, e);
    PushedKeys(seg.tokens, f.tokens, d, e);
    PlacedPositions(seg.positions, f, d, e);
    hide PushFirst, PlaceFirst, GroupFirst, KeysWith, Elements, PositionsWith;
  }

  lemma ListsBelow(seg: Segment, d: DocId)
    requires Sorted(seg) && forall e: DocId :: Mentions(seg, e) ==> e < d
    ensures forall k :: k in seg.trigrams ==>
            Ascending(seg.trigrams[k]) && forall e: DocId :: e in seg.trigrams[k] ==> e < d
    ensures forall k :: k in seg.tokens ==> Ascending(seg.tokens[k]) && forall e: DocId :: e in seg.tokens[k] ==> e < d
  {
    forall k: Trigram, e: DocId | k in seg.trigrams && e in seg.trigrams[k]
      ensures e < d
    {
      assert k in KeysWith(seg.trigrams, e);
      assert Mentions(seg, e);
    }
    forall k: Token, e: DocId | k in seg.tokens && e in seg.tokens[k]
      ensures e < d
    {
      assert k in KeysWith(seg.tokens, e);
      assert Mentions(seg, e);
    }
  }

  lemma AddedSorted(seg: Segment, d: DocId, f: ProcessedFile)
    requires WellFormedFile(f) && Sorted(seg) && forall e: DocId :: Mentions(seg, e) ==> e < d
    ensures Sorted(AddToSegment(seg, d, f))
  {
    ListsBelow(seg, d);
    PushedAscending(seg.trigrams, f.trigrams, d);
    PushedAscending(seg.tokens, f.tokens, d);
    hide PushFirst, PlaceFirst;
  }

  ghost predicate AllWellFormed(files: seq<ProcessedFile>) {
    forall i :: 0 <= i < |files| ==> WellFormedFile(files[i])
  }

  /** The segment of the first `n` files, numbered from `first` on. */
  function BuildFirst(first: DocId, files: seq<ProcessedFile>, n: nat): Segment
    requires n <= |files| && forall i :: 0 <= i < n ==> WellFormedFile(files[i])
  {
    if n == 0 then EMPTY_SEGMENT
    else AddToSegment(BuildFirst(first, files, n - 1), first + n - 1, files[n - 1])
  }

  function BuildSegment(first: DocId, files: seq<ProcessedFile>): Segment
    requires AllWellFormed(files)
  {
    BuildFirst(first, files, |files|)
  }

  ghost predicate Recalls(s: Segment, d: DocId, f: ProcessedFile)
    requires WellFormedFile(f)
  {
    DataIn(s, d) == DataOf(f) && TrigramsIn(s, d) == Elements(f.trigrams)
  }

  /** A segment that recalls each of `n` files under its id, and nothing else. */
  ghost predicate Built(s: Segment, first: DocId, files: seq<ProcessedFile>, n: nat)
    requires n <= |files| && forall i :: 0 <= i < n ==> WellFormedFile(files[i])
  {
    && Sorted(s)
    && (forall e: DocId :: Mentions(s, e) ==> first <= e < first + n)
    && (forall i :: 0 <= i < n ==> Recalls(s, first + i, files[i]))
  }

  lemma RecallsAfterAdd(before: Segment, d: DocId, f: ProcessedFile, e: DocId, g: ProcessedFile)
    requires WellFormedFile(f) && WellFormedFile(g) && !Mentions(before, d)
    requires if e == d then g == f else Recalls(before, e, g)
    ensures Recalls(AddToSegment(before, d, f), e, g)
  {
    AddedData(before, d, f, e);
  }

  lemma BuiltStep(before: Segment, first: DocId, files: seq<ProcessedFile>, n: nat)
    requires n < |files| && (forall i :: 0 <= i <= n ==> WellFormedFile(files[i])) && Built(before, first, files, n)
    ensures Built(AddToSegment(before, first + n, files[n]), first, files, n + 1)
  {
    var d, f := first + n, files[n];
    assert !Mentions(before, d);
    AddedSorted(before, d, f);
    hide WellFormedFile, Sorted, Mentions, AddToSegment, Recalls;
    var s := AddToSegment(before, d, f);
    forall e: DocId | Mentions(s, e)
      ensures first <= e <= d
    {
      AddedData(before, d, f, e);
    }
    forall i | 0 <= i <= n
      ensures Recalls(s, first + i, files[i])
    {
      RecallsAfterAdd(before, d, f, first + i, files[i]);
    }
  }

  lemma {:induction false} BuiltFirst(first: DocId, files: seq<ProcessedFile>, n: nat)
    requires n <= |files| && forall i :: 0 <= i < n ==> WellFormedFile(files[i])
    ensures Built(BuildFirst(first, files, n), first, files, n)
  {
    hide WellFormedFile, AddToSegment, Recalls;
    if n > 0 {
      BuiltFirst(first, files, n - 1);
      BuiltStep(BuildFirst(first, files, n - 1), first, files, n - 1);
    }
  }
}
