/**
  The full build (ChunkedIndexWriter, src/index/writer.rs:56-225, 719-766): files
  arrive in chunks, each chunk that has any becomes a segment, and the first
  segment is the base. An incremental update must leave what this would.
*/
module FullBuild {
  import opened Prelude
  import opened Index
  import opened SegmentBuilder
  import opened DeltaWriter
  import opened DeltaSafety
  import opened Extraction
  import opened Build
  import Compact

  ghost predicate ChunksOk(chunks: seq<seq<ProcessedFile>>) {
    forall i :: 0 <= i < |chunks| ==> AllWellFormed(chunks[i])
  }

  /** A chunk entered as segment `s`; a chunk without files leaves nothing. */
  function AddChunk(idx: Index, s: SegmentId, files: seq<ProcessedFile>): Index
    requires AllWellFormed(files)
  {
    ApplyDelta(idx, s, [], files)
  }

  /** The tables after the first `n` chunks, numbered from 1. */
  function AfterChunks(chunks: seq<seq<ProcessedFile>>, n: nat): Index
    requires n <= |chunks| && ChunksOk(chunks)
  {
    if n == 0 then EMPTY_INDEX else AddChunk(AfterChunks(chunks, n - 1), n, chunks[n - 1])
  }

  /** In how many of the first `n` files each trigram is. */
  function FileCounts(files: seq<ProcessedFile>, n: nat): map<Trigram, nat>
    requires n <= |files|
  {
    if n == 0 then map[] else Tally(FileCounts(files, n - 1), files[n - 1].trigrams, |files[n - 1].trigrams|)
  }

  function Tally(counts: map<Trigram, nat>, ts: seq<Trigram>, n: nat): map<Trigram, nat>
    requires n <= |ts|
  {
    if n == 0 then counts
    else
      var c := Tally(counts, ts, n - 1);
      c[ts[n - 1] := (if ts[n - 1] in c then c[ts[n - 1]] else 0) + 1]
  }

  /** The files among the first `n` that have the trigram. */
  function FilesWith(files: seq<ProcessedFile>, n: nat, t: Trigram): set<nat>
    requires n <= |files|
  {
    set i: nat | i < n && t in files[i].trigrams
  }

  lemma {:induction false} TallyIs(counts: map<Trigram, nat>, ts: seq<Trigram>, n: nat, t: Trigram)
    requires n <= |ts| && Distinct(ts)
    ensures t in Tally(counts, ts, n) <==> t in counts || t in ts[..n]
    ensures t in Tally(counts, ts, n) ==>
            Tally(counts, ts, n)[t] == (if t in counts then counts[t] else 0) + if t in ts[..n] then 1 else 0
  {
    if n > 0 {
      TallyIs(counts, ts, n - 1, t);
      assert ts[..n] == ts[..n - 1] + [ts[n - 1]];
    }
  }

  /** The counts kept while writing are the numbers of files that have each trigram. */
  lemma {:induction false} FileCountsAre(files: seq<ProcessedFile>, n: nat, t: Trigram)
    requires n <= |files| && AllWellFormed(files)
    ensures t in FileCounts(files, n) <==> FilesWith(files, n, t) != {}
    ensures t in FileCounts(files, n) ==> FileCounts(files, n)[t] == |FilesWith(files, n, t)|
  {
    if n > 0 {
      FileCountsAre(files, n - 1, t);
      var ts := files[n - 1].trigrams;
      assert ts[..|ts|] == ts;
      assert Distinct(ts) by { assert WellFormedFile(files[n - 1]); }
      TallyIs(FileCounts(files, n - 1), ts, |ts|, t);
      hide AllWellFormed, Tally, Distinct;
      if t in ts {
        assert FilesWith(files, n, t) == FilesWith(files, n - 1, t) + {n - 1};
      } else {
        assert FilesWith(files, n, t) == FilesWith(files, n - 1, t);
      }
    }
  }

  lemma {:induction false} CountsOfMore(a: seq<ProcessedFile>, b: seq<ProcessedFile>, n: nat)
    requires n <= |a|
    ensures FileCounts(a + b, n) == FileCounts(a, n)
  {
    if n > 0 {
      CountsOfMore(a, b, n - 1);
    }
  }

  /** First segment as base, the rest as deltas. */
  function Rebased(idx: Index, stop: set<Trigram>, rejected: seq<(Path, nat)>): Index {
    idx.(base := if idx.deltas == [] then None else Some(idx.deltas[0]),
         deltas := if idx.deltas == [] then [] else idx.deltas[1..],
         stopGrams := stop,
         rejected := rejected)
  }

  /** The tables of a build in progress. */
  function Tables(docs: seq<Document>, paths: seq<Path>, segments: map<SegmentId, Segment>,
      ids: seq<SegmentId>): Index {
    EMPTY_INDEX.(docs := docs, paths := paths, segments := segments, deltas := ids)
  }

  class ChunkedIndexWriter {
    var allDocuments: seq<Document>
    var allPaths: seq<Path>
    var pathToId: map<Path, PathId>
    var nextDocId: DocId
    var segmentIds: seq<SegmentId>
    var segments: map<SegmentId, Segment>  // written in the background
    var trigramFrequencies: map<Trigram, nat>

    ghost predicate Valid()
      reads this
    {
      && PathMap(pathToId, allPaths)
      && nextDocId == MaxId(allDocuments) + 1
    }

    function Value(): Index
      reads this
    {
      Tables(allDocuments, allPaths, segments, segmentIds)
    }

    constructor ()
      ensures Valid() && Value() == EMPTY_INDEX && trigramFrequencies == map[]
    {
      trigramFrequencies := map[];
      allDocuments, allPaths, pathToId, nextDocId, segmentIds, segments := [], [], map[], 1, [], map[];
    }

    method AddPath(path: Path) returns (id: PathId)
      requires PathMap(pathToId, allPaths)
      modifies this`pathToId, this`allPaths
      ensures PathMap(pathToId, allPaths)
      ensures allPaths == if path in old(allPaths) then old(allPaths) else old(allPaths) + [path]
      ensures id == PathIndexOr0(allPaths, path)
    {
      if path in pathToId {
        PathIndexIs(allPaths, pathToId[path]);
        return pathToId[path];
      }
      id := |allPaths|;
      ghost var was := allPaths;
      allPaths := allPaths + [path];
      pathToId := pathToId[path := id];
      PathIndexIs(allPaths, id);
    }

    /** Numbers the files of a chunk and enters them into the tables. */
    method AssignIds(segmentId: SegmentId, processedFiles: seq<ProcessedFile>)
      requires PathMap(pathToId, allPaths)
      modifies this`allDocuments, this`allPaths, this`pathToId, this`nextDocId
      ensures PathMap(pathToId, allPaths) && nextDocId == old(nextDocId) + |processedFiles|
      ensures allPaths == PathsAfter(old(allPaths), processedFiles, |processedFiles|)
      ensures allDocuments ==
              old(allDocuments) + NewDocs(old(allPaths), old(nextDocId), segmentId, processedFiles, |processedFiles|)
    {
      hide *;
      ghost var docs, paths, first := allDocuments, allPaths, nextDocId;
      var i := 0;
      ChunkStarts(docs, paths, first, segmentId, processedFiles);
      while i < |processedFiles|
        invariant 0 <= i <= |processedFiles| && nextDocId == first + i && PathMap(pathToId, allPaths)
        invariant allPaths == PathsAfter(paths, processedFiles, i)
        invariant allDocuments == docs + NewDocs(paths, first, segmentId, processedFiles, i)
      {
        var processed := processedFiles[i];
        var docId := nextDocId;
        nextDocId := nextDocId + 1;
        var pathId := AddPath(processed.relPath);
        ChunkGoesOn(docs, paths, first, segmentId, processedFiles, i);
        allDocuments := allDocuments + [NewDocument(docId, pathId, segmentId, processed)];
        i := i + 1;
      }
    }

    /** Adds the files' trigrams to the counts. */
    method CountTrigrams(ghost before: seq<ProcessedFile>, processedFiles: seq<ProcessedFile>)
      requires trigramFrequencies == FileCounts(before, |before|)
      modifies this`trigramFrequencies
      ensures trigramFrequencies == FileCounts(before + processedFiles, |before + processedFiles|)
    {
      hide *;
      var i := 0;
      CountsOfMore(before, processedFiles, |before|);
      while i < |processedFiles|
        invariant 0 <= i <= |processedFiles|
        invariant trigramFrequencies == FileCounts(before + processedFiles, |before| + i)
      {
        var ts := processedFiles[i].trigrams;
        ghost var counts := trigramFrequencies;
        assert (before + processedFiles)[|before| + i].trigrams == ts;
        TallyStarts(counts, ts);
        var j := 0;
        while j < |ts|
          invariant 0 <= j <= |ts| && trigramFrequencies == Tally(counts, ts, j)
        {
          TallyGoesOn(counts, ts, j);
          var n := if ts[j] in trigramFrequencies then trigramFrequencies[ts[j]] else 0;
          trigramFrequencies := trigramFrequencies[ts[j] := n + 1];
          j := j + 1;
        }
        CountsGoOn(before + processedFiles, |before| + i);
        i := i + 1;
      }
    }

    method WriteChunk(ghost before: seq<ProcessedFile>, segmentId: SegmentId, processedFiles: seq<ProcessedFile>)
      requires Valid() && AllWellFormed(processedFiles) && trigramFrequencies == FileCounts(before, |before|)
      modifies this
      ensures Valid() && Value() == AddChunk(old(Value()), segmentId, processedFiles)
      ensures trigramFrequencies == FileCounts(before + processedFiles, |before + processedFiles|)
    {
      hide AddChunk, PathMap, NewDocs, PathsAfter, MaxId, BuildSegment, AllWellFormed, Tables, FileCounts;
      CountTrigrams(before, processedFiles);
      if processedFiles == [] {
        NoChunk(Value(), segmentId);
        return;
      }
      var first := nextDocId;
      ghost var docs, paths, ids, segs := allDocuments, allPaths, segmentIds, segments;
      segmentIds := segmentIds + [segmentId];
      AssignIds(segmentId, processedFiles);
      segments := segments[segmentId := BuildSegment(first, processedFiles)];
      LastIdIs(docs, paths, first, segmentId, processedFiles, |processedFiles|);
      ChunkAdded(docs, paths, segs, ids, segmentId, processedFiles);
    }
  }

  lemma TallyStarts(counts: map<Trigram, nat>, ts: seq<Trigram>)
    ensures Tally(counts, ts, 0) == counts
  {
  }

  lemma TallyGoesOn(counts: map<Trigram, nat>, ts: seq<Trigram>, j: nat)
    requires j < |ts|
    ensures var c := Tally(counts, ts, j);
            Tally(counts, ts, j + 1) == c[ts[j] := (if ts[j] in c then c[ts[j]] else 0) + 1]
  {
  }

  lemma CountsGoOn(files: seq<ProcessedFile>, n: nat)
    requires n < |files|
    ensures FileCounts(files, n + 1) == Tally(FileCounts(files, n), files[n].trigrams, |files[n].trigrams|)
  {
  }

  lemma NoChunk(idx: Index, s: SegmentId)
    ensures AllWellFormed([]) && AddChunk(idx, s, []) == idx
  {
  }

  lemma ChunkStarts(docs: seq<Document>, paths: seq<Path>, first: DocId, s: SegmentId, files: seq<ProcessedFile>)
    ensures PathsAfter(paths, files, 0) == paths && docs == docs + NewDocs(paths, first, s, files, 0)
  {
  }

  lemma ChunkGoesOn(docs: seq<Document>, paths: seq<Path>, first: DocId, s: SegmentId, files: seq<ProcessedFile>,
      i: nat)
    requires i < |files|
    ensures var before, f := PathsAfter(paths, files, i), files[i];
            PathsAfter(paths, files, i + 1) == if f.relPath in before then before else before + [f.relPath]
    ensures docs + NewDocs(paths, first, s, files, i + 1) ==
            (docs + NewDocs(paths, first, s, files, i)) +
              [NewDocument(first + i, PathIndexOr0(PathsAfter(paths, files, i + 1), files[i].relPath), s, files[i])]
  {
    hide PathIndexOr0, NewDocument;
  }

  lemma ChunkAdded(docs: seq<Document>, paths: seq<Path>, segments: map<SegmentId, Segment>, ids: seq<SegmentId>,
      s: SegmentId, files: seq<ProcessedFile>)
    requires files != [] && AllWellFormed(files)
    ensures var first := MaxId(docs) + 1;
            AddChunk(Tables(docs, paths, segments, ids), s, files) ==
            Tables(docs + NewDocs(paths, first, s, files, |files|), PathsAfter(paths, files, |files|),
                   segments[s := BuildSegment(first, files)], ids + [s])
  {
    hide NewDocs, PathsAfter, MaxId, BuildSegment, AllWellFormed;
    assert Bury(docs, []) == docs;
  }

  /** Numbering goes on from the last document. */
  lemma {:induction false} LastIdIs(docs: seq<Document>, paths: seq<Path>, first: DocId, s: SegmentId,
      files: seq<ProcessedFile>, n: nat)
    requires n <= |files| && first == MaxId(docs) + 1
    ensures MaxId(docs + NewDocs(paths, first, s, files, n)) == MaxId(docs) + n
  {
    hide PathsAfter, PathIndexOr0;
    if n == 0 {
      assert docs + [] == docs;
    } else {
      LastIdIs(docs, paths, first, s, files, n - 1);
      var all := docs + NewDocs(paths, first, s, files, n);
      assert all[..|all| - 1] == docs + NewDocs(paths, first, s, files, n - 1);
      assert all[|all| - 1].docId == first + n - 1;
    }
  }

  /** A full build: the tables of the chunks, and the trigrams in more than half of the files as stop-grams. */
  method BuildIndex(chunks: seq<seq<ProcessedFile>>, rejected: seq<(Path, nat)>) returns (idx: Index)
    requires ChunksOk(chunks)
    ensures idx == Rebased(AfterChunks(chunks, |chunks|), idx.stopGrams, rejected)
    ensures var files := Flat(chunks, |chunks|);
            Compact.StopGramChoice(idx.stopGrams, FileCounts(files, |files|), |idx.docs|, Compact.MAX_STOP_GRAMS)
  {
    var writer := new ChunkedIndexWriter();
    var k := 0;
    while k < |chunks|
      invariant 0 <= k <= |chunks| && fresh(writer) && writer.Valid() && writer.Value() == AfterChunks(chunks, k)
      invariant writer.trigramFrequencies == FileCounts(Flat(chunks, k), |Flat(chunks, k)|)
    {
      assert AllWellFormed(chunks[k]);
      hide AddChunk, ChunkedIndexWriter.Valid, AllWellFormed, FileCounts;
      writer.WriteChunk(Flat(chunks, k), k + 1, chunks[k]);
      k := k + 1;
    }
    var stop := Compact.SelectStopGrams(writer.trigramFrequencies, |writer.allDocuments|, Compact.MAX_STOP_GRAMS);
    idx := Rebased(writer.Value(), stop, rejected);
  }

  // ------------------------------------------------- what the tables know, by chunk

  /** All files of the first `n` chunks. */
  function Flat(chunks: seq<seq<ProcessedFile>>, n: nat): seq<ProcessedFile>
    requires n <= |chunks|
  {
    if n == 0 then [] else Flat(chunks, n - 1) + chunks[n - 1]
  }

  /** The same tables, had every chunk left a segment number. */
  ghost function Padded(chunks: seq<seq<ProcessedFile>>, n: nat): Index
    requires n <= |chunks| && ChunksOk(chunks)
  {
    if n == 0 then EMPTY_INDEX
    else if chunks[n - 1] == [] then Padded(chunks, n - 1).(deltas := Padded(chunks, n - 1).deltas + [n])
    else ApplyDelta(Padded(chunks, n - 1), n, [], chunks[n - 1])
  }

  lemma {:induction false} PaddedDeltas(chunks: seq<seq<ProcessedFile>>, n: nat)
    requires n <= |chunks| && ChunksOk(chunks)
    ensures Padded(chunks, n).base == None && |Padded(chunks, n).deltas| == n
    ensures forall k :: 0 <= k < n ==> Padded(chunks, n).deltas[k] == k + 1
  {
    hide AllWellFormed, BuildSegment, NewDocs, MaxId, PathsAfter;
    if n > 0 {
      PaddedDeltas(chunks, n - 1);
    }
  }

  lemma PaddedNext(chunks: seq<seq<ProcessedFile>>, n: nat)
    requires n <= |chunks| && ChunksOk(chunks)
    ensures NextSegmentId(Padded(chunks, n)) == n + 1
  {
    PaddedDeltas(chunks, n);
    var deltas := Padded(chunks, n).deltas;
    hide Padded;
    if n > 0 {
      assert deltas[n - 1] == n && deltas[n - 1] in deltas;
      var m := MaxSegment(deltas);
      assert m in deltas;
    }
  }

  /** A chunk of the padded tables is an update that buries nothing. */
  lemma PaddedStep(chunks: seq<seq<ProcessedFile>>, n: nat)
    requires n < |chunks| && ChunksOk(chunks) && chunks[n] != []
    ensures AllWellFormed(chunks[n])
    ensures Padded(chunks, n + 1) == Updated(Padded(chunks, n), [], chunks[n])
  {
    PaddedNext(chunks, n);
    assert DeadForAll(Padded(chunks, n), []) == [];
    hide NextSegmentId;
  }

  /** What an index should say of a path, given the files entered. */
  ghost predicate Knows(idx: Index, files: seq<ProcessedFile>, p: Path)
    requires AllWellFormed(files)
  {
    match FileFor(files, |files|, p)
    case None => LiveDoc(idx, p).None?
    case Some(j) =>
      && LiveDoc(idx, p).Some?
      && Lookup(idx, p) == Some(KnownOf(files[j]))
      && TrigramsOf(idx, LiveDoc(idx, p).value) == Elements(files[j].trigrams)
  }

  ghost predicate KnowsAll(idx: Index, files: seq<ProcessedFile>)
    requires AllWellFormed(files)
  {
    forall p :: Knows(idx, files, p)
  }

  lemma {:induction false} FlatOk(chunks: seq<seq<ProcessedFile>>, n: nat)
    requires n <= |chunks| && ChunksOk(chunks)
    ensures AllWellFormed(Flat(chunks, n))
  {
    hide WellFormedFile;
    if n > 0 {
      FlatOk(chunks, n - 1);
      assert AllWellFormed(chunks[n - 1]);
    }
  }

  /** With distinct paths a file is found in the concatenation where it is found in a part. */
  lemma FileForConcat(a: seq<ProcessedFile>, b: seq<ProcessedFile>, p: Path)
    requires DistinctPaths(a + b)
    ensures var at := FileFor(a + b, |a + b|, p);
            match FileFor(b, |b|, p)
            case Some(j) => at == Some(|a| + j)
            case None => at == FileFor(a, |a|, p)
  {
    var both := a + b;
    var x, y, at := FileFor(a, |a|, p), FileFor(b, |b|, p), FileFor(both, |both|, p);
    hide FileFor;
    assert forall i :: 0 <= i < |a| ==> both[i] == a[i];
    assert forall j :: 0 <= j < |b| ==> both[|a| + j] == b[j];
    if at.Some? {
      if at.value < |a| {
        assert both[at.value] == a[at.value];
      } else {
        assert both[at.value] == b[at.value - |a|];
      }
    }
    if y.Some? {
      assert both[|a| + y.value].relPath == p;
    } else if x.Some? {
      assert both[x.value].relPath == p;
    }
  }

  lemma DistinctParts(a: seq<ProcessedFile>, b: seq<ProcessedFile>)
    requires DistinctPaths(a + b)
    ensures DistinctPaths(a) && DistinctPaths(b)
    ensures forall i, j :: 0 <= i < |a| && 0 <= j < |b| ==> a[i].relPath != b[j].relPath
  {
    var both := a + b;
    assert forall i :: 0 <= i < |a| ==> both[i] == a[i];
    assert forall j :: 0 <= j < |b| ==> both[|a| + j] == b[j];
    forall i, j | 0 <= i < |a| && 0 <= j < |b|
      ensures a[i].relPath != b[j].relPath
    {
      assert both[i].relPath != both[|a| + j].relPath;
    }
    forall i, j | 0 <= i < j < |b|
      ensures b[i].relPath != b[j].relPath
    {
      assert both[|a| + i].relPath != both[|a| + j].relPath;
    }
  }

  lemma NothingToBury(idx: Index, a: seq<ProcessedFile>, b: seq<ProcessedFile>)
    requires AllWellFormed(a) && KnowsAll(idx, a) && DistinctPaths(a + b)
    ensures BuriesWhatItAdds(idx, [], b)
  {
    DistinctParts(a, b);
    hide LiveDoc, Lookup, TrigramsOf, KnownOf;
    forall j | 0 <= j < |b|
      ensures LiveDoc(idx, b[j].relPath).None?
    {
      assert Knows(idx, a, b[j].relPath);
    }
  }

  lemma KnowsMore(idx: Index, a: seq<ProcessedFile>, b: seq<ProcessedFile>, p: Path)
    requires Valid(idx) && AllWellFormed(a) && AllWellFormed(b) && AllWellFormed(a + b)
    requires KnowsAll(idx, a) && DistinctPaths(a + b)
    ensures Knows(Updated(idx, [], b), a + b, p)
  {
    hide *;
    DistinctParts(a, b);
    NothingToBury(idx, a, b);
    FileForConcat(a, b, p);
    KnowsOne(idx, a, p);
    DeltaMeaning(idx, [], b, p);
    DeltaTrigrams(idx, [], b, p);
    UnknownIffDead(Updated(idx, [], b), p);
    UnknownIffDead(idx, p);
    if FileFor(b, |b|, p).Some? {
      var j := FileFor(b, |b|, p).value;
      assert FileFor(a + b, |a + b|, p) == Some(|a| + j);
      assert (a + b)[|a| + j] == b[j];
      assert WellFormedFile(b[j]) by { PartOk(b, j); }
      KnowsAs(Updated(idx, [], b), a + b, p);
    } else {
      KnownAs(idx, a, p);
      if FileFor(a, |a|, p).Some? {
        var i := FileFor(a, |a|, p).value;
        assert (a + b)[i] == a[i];
        assert FileFor(a + b, |a + b|, p) == Some(i);
        assert LiveDoc(idx, p).Some?;
        assert LiveDoc(Updated(idx, [], b), p) == LiveDoc(idx, p);
        KnowsAs(Updated(idx, [], b), a + b, p);
      } else {
        KnowsAs(Updated(idx, [], b), a + b, p);
      }
    }
  }

  lemma PartOk(files: seq<ProcessedFile>, j: nat)
    requires AllWellFormed(files) && j < |files|
    ensures WellFormedFile(files[j])
  {
  }

  lemma KnowsOne(idx: Index, files: seq<ProcessedFile>, p: Path)
    requires AllWellFormed(files) && KnowsAll(idx, files)
    ensures Knows(idx, files, p)
  {
  }

  lemma KnownAs(idx: Index, files: seq<ProcessedFile>, p: Path)
    requires AllWellFormed(files) && Knows(idx, files, p)
    ensures var at := FileFor(files, |files|, p);
            && (at.None? ==> LiveDoc(idx, p).None?)
            && (at.Some? ==> LiveDoc(idx, p).Some? && WellFormedFile(files[at.value])
                             && Lookup(idx, p) == Some(KnownOf(files[at.value]))
                             && TrigramsOf(idx, LiveDoc(idx, p).value) == Elements(files[at.value].trigrams))
  {
  }

  lemma KnowsAs(idx: Index, files: seq<ProcessedFile>, p: Path)
    requires AllWellFormed(files)
    requires var at := FileFor(files, |files|, p);
             && (at.None? ==> LiveDoc(idx, p).None?)
             && (at.Some? ==> LiveDoc(idx, p).Some? && WellFormedFile(files[at.value])
                              && Lookup(idx, p) == Some(KnownOf(files[at.value]))
                              && TrigramsOf(idx, LiveDoc(idx, p).value) == Elements(files[at.value].trigrams))
    ensures Knows(idx, files, p)
  {
  }

  lemma UnknownIffDead(idx: Index, p: Path)
    ensures Lookup(idx, p).None? <==> LiveDoc(idx, p).None?
  {
  }

  lemma PhantomSegment(idx: Index, n: SegmentId)
    requires Valid(idx) && n !in Active(idx) && n >= 1 && (idx.base.Some? ==> idx.base.value < n)
    ensures Valid(idx.(deltas := idx.deltas + [n]))
  {
    var u := idx.(deltas := idx.deltas + [n]);
    assert Active(u) == Active(idx) + [n];
    hide Mentions, Owns, Sorted;
    forall s | s in u.segments
      ensures SegmentSound(u, s)
    {
      assert SegmentSound(idx, s);
    }
  }

  lemma KnowsDespiteDeltas(idx: Index, deltas: seq<SegmentId>, files: seq<ProcessedFile>)
    requires AllWellFormed(files) && KnowsAll(idx, files)
    ensures KnowsAll(idx.(deltas := deltas), files)
  {
    var u := idx.(deltas := deltas);
    forall p
      ensures Knows(u, files, p)
    {
      assert Knows(idx, files, p);
      assert LiveDoc(u, p) == LiveDoc(idx, p);
      hide FileFor, KnownOf;
    }
  }

  lemma EmptyIsValid()
    ensures Valid(EMPTY_INDEX) && AllWellFormed([]) && KnowsAll(EMPTY_INDEX, [])
  {
    assert Active(EMPTY_INDEX) == [];
    forall p
      ensures Knows(EMPTY_INDEX, [], p)
    {
      assert FileFor([], 0, p).None?;
    }
  }

  /** Every chunk's files are known, and the tables stay valid. */
  lemma {:induction false} PaddedKnows(chunks: seq<seq<ProcessedFile>>, n: nat)
    requires n <= |chunks| && ChunksOk(chunks) && DistinctPaths(Flat(chunks, n))
    ensures AllWellFormed(Flat(chunks, n))
    ensures Valid(Padded(chunks, n)) && KnowsAll(Padded(chunks, n), Flat(chunks, n))
  {
    FlatOk(chunks, n);
    if n == 0 {
      EmptyIsValid();
    } else {
      var a, b := Flat(chunks, n - 1), chunks[n - 1];
      var idx := Padded(chunks, n - 1);
      DistinctParts(a, b);
      PaddedKnows(chunks, n - 1);
      assert AllWellFormed(b);
      PaddedDeltas(chunks, n - 1);
      hide KnowsAll, AllWellFormed, DistinctPaths;
      if b == [] {
        assert a + b == a;
        assert n !in Active(idx);
        PhantomSegment(idx, n);
        KnowsDespiteDeltas(idx, idx.deltas + [n], a);
      } else {
        PaddedStep(chunks, n - 1);
        ChunkKnown(idx, a, b);
      }
    }
  }

  lemma ChunkKnown(idx: Index, a: seq<ProcessedFile>, b: seq<ProcessedFile>)
    requires Valid(idx) && AllWellFormed(a) && AllWellFormed(b) && AllWellFormed(a + b)
    requires KnowsAll(idx, a) && DistinctPaths(a + b)
    ensures Valid(Updated(idx, [], b)) && KnowsAll(Updated(idx, [], b), a + b)
  {
    hide Knows, Updated, Valid, AllWellFormed;
    DistinctParts(a, b);
    NothingToBury(idx, a, b);
    DeltaKeepsValid(idx, [], b);
    forall p
      ensures Knows(Updated(idx, [], b), a + b, p)
    {
      KnowsMore(idx, a, b, p);
    }
  }

  // ---------------------------------------------------------- the tables written

  /** The same tables but for segment numbers that have no segment. */
  ghost predicate SameTables(u: Index, idx: Index) {
    && u.docs == idx.docs && u.paths == idx.paths && u.segments == idx.segments
    && (forall k, l :: 0 <= k < l < |u.deltas| ==> u.deltas[k] < u.deltas[l])
    && (forall k :: 0 <= k < |u.deltas| ==> 1 <= u.deltas[k])
    && (forall s :: s in u.segments ==> s in u.deltas)
  }

  lemma {:induction false} ChunksAreSame(chunks: seq<seq<ProcessedFile>>, n: nat)
    requires n <= |chunks| && ChunksOk(chunks)
    ensures SameTables(AfterChunks(chunks, n), Padded(chunks, n))
    ensures forall k :: 0 <= k < |AfterChunks(chunks, n).deltas| ==> AfterChunks(chunks, n).deltas[k] <= n
  {
    hide AllWellFormed, BuildSegment, NewDocs, MaxId, PathsAfter, Bury, AddChunk, SameTables;
    if n > 0 {
      ChunksAreSame(chunks, n - 1);
      var u, idx := AfterChunks(chunks, n - 1), Padded(chunks, n - 1);
      assert AllWellFormed(chunks[n - 1]);
      assert AfterChunks(chunks, n) == AddChunk(u, n, chunks[n - 1]);
      assert Padded(chunks, n) ==
             if chunks[n - 1] == [] then idx.(deltas := idx.deltas + [n]) else ApplyDelta(idx, n, [], chunks[n - 1]);
      hide AfterChunks, Padded;
      SameStep(u, idx, n, chunks[n - 1]);
    } else {
      assert SameTables(EMPTY_INDEX, EMPTY_INDEX) by { NoTables(); }
    }
  }

  lemma NoTables()
    ensures SameTables(EMPTY_INDEX, EMPTY_INDEX)
  {
  }

  lemma SameStep(u: Index, idx: Index, n: SegmentId, files: seq<ProcessedFile>)
    requires AllWellFormed(files) && SameTables(u, idx) && n > 0
    requires forall k :: 0 <= k < |u.deltas| ==> u.deltas[k] < n
    ensures var v := AddChunk(u, n, files);
            && SameTables(v, if files == [] then idx.(deltas := idx.deltas + [n]) else ApplyDelta(idx, n, [], files))
            && forall k :: 0 <= k < |v.deltas| ==> v.deltas[k] <= n
  {
    hide AllWellFormed, BuildSegment, NewDocs, MaxId, PathsAfter, Bury;
  }

  lemma RebasedIsValid(u: Index, idx: Index, stop: set<Trigram>, rejected: seq<(Path, nat)>)
    requires Valid(idx) && SameTables(u, idx)
    ensures Valid(Rebased(u, stop, rejected))
  {
    var r := Rebased(u, stop, rejected);
    assert Active(r) == u.deltas;
    assert SegmentOrder(r) by { RebasedOrder(u, idx, stop, rejected); }
    hide Rebased, Active, SegmentOrder, Sorted, Mentions, Owns;
    RebasedSound(u, idx, r);
    hide SegmentsSound, SameTables, OneLive, AscendingIds;
    assert forall i :: 0 <= i < |r.docs| && r.docs[i].IsValid() ==> r.docs[i].segmentId in idx.segments;
  }

  lemma RebasedSound(u: Index, idx: Index, r: Index)
    requires Valid(idx) && SameTables(u, idx) && Active(r) == u.deltas
    requires r.docs == idx.docs && r.paths == idx.paths && r.segments == idx.segments
    ensures SegmentsSound(r)
    ensures forall s :: s in r.segments ==> s in Active(r)
  {
    hide Active, Sorted, Mentions, Owns, OneLive, AscendingIds, SegmentsPresent, SegmentOrder;
    forall s | s in r.segments
      ensures SegmentSound(r, s)
    {
      assert SegmentSound(idx, s);
    }
  }

  lemma RebasedOrder(u: Index, idx: Index, stop: set<Trigram>, rejected: seq<(Path, nat)>)
    requires SameTables(u, idx)
    ensures SegmentOrder(Rebased(u, stop, rejected))
  {
    var r := Rebased(u, stop, rejected);
    assert Active(r) == u.deltas;
    assert forall k :: 0 <= k < |r.deltas| ==> r.deltas[k] == u.deltas[k + 1];
    assert Distinct(u.deltas) by { hide Active; GrowingIsDistinct(u.deltas); }
    hide Active;
  }

  lemma GrowingIsDistinct(s: seq<nat>)
    requires forall k, l :: 0 <= k < l < |s| ==> s[k] < s[l]
    ensures Distinct(s)
  {
  }

  lemma RebasedKnows(u: Index, idx: Index, stop: set<Trigram>, rejected: seq<(Path, nat)>, p: Path)
    requires SameTables(u, idx)
    ensures LiveDoc(Rebased(u, stop, rejected), p) == LiveDoc(idx, p)
    ensures Lookup(Rebased(u, stop, rejected), p) == Lookup(idx, p)
    ensures LiveTrigrams(Rebased(u, stop, rejected), p) == LiveTrigrams(idx, p)
  {
  }

  /** The chunks hold what extraction makes of the files there are, each once. */
  ghost predicate ChunksHold(chunks: seq<seq<ProcessedFile>>, fs: FileSystem, extract: Extractor) {
    && ChunksOk(chunks) && DistinctPaths(Flat(chunks, |chunks|))
    && forall f :: f in Flat(chunks, |chunks|) <==> ExtractAt(extract, fs, f.relPath) == Some(f)
  }

  /** A full build leaves a valid index that knows every file as it is, however the files are divided into chunks. */
  lemma FullBuildMeetsDisk(chunks: seq<seq<ProcessedFile>>, stop: set<Trigram>, rejected: seq<(Path, nat)>,
      fs: FileSystem, extract: Extractor)
    requires Sound(extract) && ChunksHold(chunks, fs, extract)
    ensures Valid(Rebased(AfterChunks(chunks, |chunks|), stop, rejected))
    ensures Current(Rebased(AfterChunks(chunks, |chunks|), stop, rejected), fs, extract, {})
  {
    var n := |chunks|;
    PaddedKnows(chunks, n);
    ChunksAreSame(chunks, n);
    var u, idx := AfterChunks(chunks, n), Padded(chunks, n);
    hide AfterChunks, Padded, SameTables, Rebased;
    RebasedIsValid(u, idx, stop, rejected);
    hide Valid, Lookup, LiveTrigrams, Expected, Grams;
    forall p
      ensures Right(Rebased(u, stop, rejected), fs, p, extract, {})
    {
      RebasedKnows(u, idx, stop, rejected, p);
      HeldIsExpected(chunks, idx, fs, extract, p);
    }
  }

  lemma HeldIsExpected(chunks: seq<seq<ProcessedFile>>, idx: Index, fs: FileSystem, extract: Extractor, p: Path)
    requires Sound(extract) && ChunksHold(chunks, fs, extract) && AllWellFormed(Flat(chunks, |chunks|))
    requires KnowsAll(idx, Flat(chunks, |chunks|))
    ensures Lookup(idx, p) == Expected(fs, p, extract) && LiveTrigrams(idx, p) == Grams(fs, p, extract)
  {
    var files := Flat(chunks, |chunks|);
    assert Knows(idx, files, p);
    UnknownIffDead(idx, p);
    FileForAt(files, p);
    hide KnowsAll, Flat, Lookup, LiveDoc, KnownOf, TrigramsOf;
    var at := FileFor(files, |files|, p);
    hide FileFor;
    if at.Some? {
      assert files[at.value] in files;
    }
    if ExtractAt(extract, fs, p).Some? {
      assert ExtractAt(extract, fs, p).value in files;
    }
  }

  /**
    The incremental update agrees with the full build: if times tell, every path
    is known the same either way, and with the same trigrams but for those that
    compactions have taken out, one at the end of the update included.
  */
  lemma IncrementalIsFull(idx: Index, diff: IndexDiff, indexed: Indexed, compacts: bool, u: Index,
      chunks: seq<seq<ProcessedFile>>, stop: set<Trigram>, rejected: seq<(Path, nat)>, fs: FileSystem,
      extract: Extractor, visible: Visibility, gone: set<Trigram>, p: Path)
    requires Valid(idx) && Agrees(extract, visible) && Lists(idx, indexed)
    requires DiffIs(diff, indexed, RejectedMap(idx), fs, visible)
    requires TimesTell(idx, fs, extract, visible, gone) && ChunksHold(chunks, fs, extract)
    requires AllWellFormed(ExtractAll(extract, fs, ToIndex(diff))) && UpdatesTo(idx, diff, fs, extract, compacts, u)
    ensures var built, taken := Rebased(AfterChunks(chunks, |chunks|), stop, rejected), GoneAfter(gone, compacts, u);
            && Lookup(u, p) == Lookup(built, p)
            && LiveTrigrams(built, p) - taken <= LiveTrigrams(u, p) <= LiveTrigrams(built, p)
            && (taken == {} ==> LiveTrigrams(u, p) == LiveTrigrams(built, p))
  {
    UpdateMeetsDisk(idx, diff, indexed, fs, extract, visible, gone, compacts, u);
    FullBuildMeetsDisk(chunks, stop, rejected, fs, extract);
    hide Lookup, LiveTrigrams, Expected, Grams, UpdatesTo, Rebased, AfterChunks, Valid, ChunksHold, DiffIs, Lists,
        TimesTell, Agrees, GoneAfter;
    assert Right(u, fs, p, extract, GoneAfter(gone, compacts, u));
    assert Right(Rebased(AfterChunks(chunks, |chunks|), stop, rejected), fs, p, extract, {});
  }
}
