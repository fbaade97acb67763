/** What adding files does to the documents of an index, one by one. */
module Additions {
  import opened Prelude
  import opened Index
  import opened SegmentBuilder
  import opened DeltaWriter
  import opened DeltaSafety

  lemma OldTrigrams(idx: Index, u: Index, gone: seq<Path>, files: seq<ProcessedFile>, k: nat)
    requires Valid(idx) && AllWellFormed(files) && Extends(idx, u, gone, files) && Valid(u)
    requires k < |idx.docs| && k < |u.docs| && u.docs[k].IsValid()
    ensures TrigramsOf(u, u.docs[k]) == TrigramsOf(idx, idx.docs[k])
  {
    assert IsOldDoc(idx, u, gone, k);
    hide LiveDoc, TrigramsOf, BuildSegment, NextSegmentId, MaxId, Extends, TableIs, AllWellFormed, SegmentsSound,
        SegmentsPresent, SegmentOrder, AscendingIds;
    RecallOld(idx, u, gone, files, k);
  }

  lemma NewTrigrams(idx: Index, u: Index, gone: seq<Path>, files: seq<ProcessedFile>, k: nat)
    requires Valid(idx) && AllWellFormed(files) && Extends(idx, u, gone, files) && Valid(u)
    requires |idx.docs| <= k < |u.docs| && u.docs[k].IsValid()
    ensures k - |idx.docs| < |files| && TrigramsOf(u, u.docs[k]) == Elements(files[k - |idx.docs|].trigrams)
  {
    NewDocIs(idx, u, gone, files, k);
    LiveParts(u);
    hide *;
    var p := files[k - |idx.docs|].relPath;
    RecallNew(idx, u, gone, files, k - |idx.docs|);
    LiveDocIs(u, k);
    assert LiveDoc(u, p) == Some(u.docs[k]);
  }

  lemma LiveParts(u: Index)
    requires Valid(u)
    ensures PathIdsIn(u.docs, |u.paths|) && Distinct(u.paths) && OneLive(u.docs)
  {
  }

  lemma NewDocIs(idx: Index, u: Index, gone: seq<Path>, files: seq<ProcessedFile>, k: nat)
    requires PathIdsIn(idx.docs, |idx.paths|) && AllWellFormed(files) && Extends(idx, u, gone, files)
    requires |idx.docs| <= k < |u.docs|
    ensures k - |idx.docs| < |files| && u.docs[k].pathId < |u.paths|
    ensures u.paths[u.docs[k].pathId] == files[k - |idx.docs|].relPath
  {
    hide MaxId, NextSegmentId, BuildSegment, Active, AllWellFormed;
    var j := k - |idx.docs|;
    assert IsNewDoc(u, |idx.docs| + j, MaxId(idx.docs) + 1 + j, NextSegmentId(idx), files[j]);
  }

  /** Documents an update leaves have the trigrams they had, and those it adds have their files'. */
  lemma UpdatedTrigrams(idx: Index, gone: seq<Path>, files: seq<ProcessedFile>, k: nat)
    requires Valid(idx) && AllWellFormed(files) && DistinctPaths(files) && BuriesWhatItAdds(idx, gone, files)
    requires k < |Updated(idx, gone, files).docs| && Updated(idx, gone, files).docs[k].IsValid()
    ensures var u := Updated(idx, gone, files);
            && (k < |idx.docs| ==> TrigramsOf(u, u.docs[k]) == TrigramsOf(idx, idx.docs[k]))
            && (k >= |idx.docs| ==>
                k - |idx.docs| < |files| && TrigramsOf(u, u.docs[k]) == Elements(files[k - |idx.docs|].trigrams))
  {
    hide *;
    UpdatedExtends(idx, gone, files);
    DeltaKeepsValid(idx, gone, files);
    if k < |idx.docs| {
      OldTrigrams(idx, Updated(idx, gone, files), gone, files, k);
    } else {
      NewTrigrams(idx, Updated(idx, gone, files), gone, files, k);
    }
  }

  lemma EmptyIndexValid()
    ensures Valid(EMPTY_INDEX) && forall p :: LiveDoc(EMPTY_INDEX, p).None?
  {
    assert Active(EMPTY_INDEX) == [];
  }

  lemma OneMoreFile(idx: Index, f: ProcessedFile)
    requires Valid(idx) && WellFormedFile(f) && LiveDoc(idx, f.relPath).None?
    ensures DistinctPaths([f]) && BuriesWhatItAdds(idx, [], [f]) && Valid(Updated(idx, [], [f]))
    ensures forall p :: LiveDoc(Updated(idx, [], [f]), p).Some? <==> p == f.relPath || LiveDoc(idx, p).Some?
    ensures |Updated(idx, [], [f]).docs| == |idx.docs| + 1 && Updated(idx, [], [f]).docs[|idx.docs|].IsValid()
    ensures forall k :: 0 <= k < |idx.docs| ==> (Updated(idx, [], [f]).docs[k].IsValid() <==> idx.docs[k].IsValid())
    ensures forall k :: 0 <= k < |idx.docs| && idx.docs[k].IsValid() ==>
              TrigramsOf(Updated(idx, [], [f]), Updated(idx, [], [f]).docs[k]) == TrigramsOf(idx, idx.docs[k])
    ensures TrigramsOf(Updated(idx, [], [f]), Updated(idx, [], [f]).docs[|idx.docs|]) == Elements(f.trigrams)
  {
    hide TrigramsOf, LiveDoc, Updated, WellFormedFile, Valid;
    assert AllWellFormed([f]) && DistinctPaths([f]) && BuriesWhatItAdds(idx, [], [f]);
    DeltaKeepsValid(idx, [], [f]);
    forall p
      ensures LiveDoc(Updated(idx, [], [f]), p).Some? <==> p == f.relPath || LiveDoc(idx, p).Some?
    {
      DeltaMeaning(idx, [], [f], p);
      KnownIffLive(idx, p);
      KnownIffLive(Updated(idx, [], [f]), p);
    }
    UpdatedTableOf(idx, f);
    UpdatedTrigrams(idx, [], [f], |idx.docs|);
    forall k | 0 <= k < |idx.docs| && idx.docs[k].IsValid()
      ensures TrigramsOf(Updated(idx, [], [f]), Updated(idx, [], [f]).docs[k]) == TrigramsOf(idx, idx.docs[k])
    {
      UpdatedTrigrams(idx, [], [f], k);
    }
  }

  lemma KnownIffLive(idx: Index, p: Path)
    ensures Lookup(idx, p).Some? <==> LiveDoc(idx, p).Some?
  {
  }

  lemma UpdatedTableOf(idx: Index, f: ProcessedFile)
    requires Valid(idx) && AllWellFormed([f])
    ensures var u := Updated(idx, [], [f]);
            && |u.docs| == |idx.docs| + 1 && u.docs[|idx.docs|].IsValid()
            && forall k :: 0 <= k < |idx.docs| ==> (u.docs[k].IsValid() <==> idx.docs[k].IsValid())
  {
    UpdatedTable(idx, [], [f]);
    var u := Updated(idx, [], [f]);
    ValidParts(idx);
    hide Valid, Updated, IsOldDoc, IsNewDoc, Distinct, PathIdsIn;
    assert |u.docs| == |idx.docs| + 1;
    var d, s := MaxId(idx.docs) + 1, NextSegmentId(idx);
    assert IsNewDoc(u, |idx.docs| + 0, d + 0, s, f);
    NewIsValid(u, |idx.docs|, d, s, f);
    forall k | 0 <= k < |idx.docs|
      ensures u.docs[k].IsValid() <==> idx.docs[k].IsValid()
    {
      assert IsOldDoc(idx, u, [], k);
      OldIsValid(idx, u, k);
    }
  }

  lemma NewIsValid(u: Index, k: nat, d: DocId, s: SegmentId, f: ProcessedFile)
    requires IsNewDoc(u, k, d, s, f)
    ensures k < |u.docs| && u.docs[k].IsValid()
  {
  }

  lemma OldIsValid(idx: Index, u: Index, k: nat)
    requires PathIdsIn(idx.docs, |idx.paths|) && IsOldDoc(idx, u, [], k)
    ensures k < |idx.docs| && k < |u.docs| && (u.docs[k].IsValid() <==> idx.docs[k].IsValid())
  {
  }

  lemma OneMoreSegment(idx: Index, f: ProcessedFile)
    requires AllWellFormed([f])
    ensures Updated(idx, [], [f]).base == idx.base && Updated(idx, [], [f]).deltas == idx.deltas + [NextSegmentId(idx)]
  {
    UpdatedShape(idx, [], [f]);
  }
}
