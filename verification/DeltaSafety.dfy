/**
  What a delta does to a valid index: exactly the buried paths disappear and
  exactly the added files appear, every invariant is kept, and the promise
  "one valid document per path" holds if and only if the caller buries what it
  re-adds.
*/
module DeltaSafety {
  import opened Prelude
  import opened Index
  import opened SegmentBuilder
  import opened DeltaWriter

  /** The files are for different paths. */
  ghost predicate DistinctPaths(files: seq<ProcessedFile>) {
    forall i, j :: 0 <= i < j < |files| ==> files[i].relPath != files[j].relPath
  }

  /** Every re-added path is buried first. */
  ghost predicate BuriesWhatItAdds(idx: Index, gone: seq<Path>, files: seq<ProcessedFile>) {
    forall i :: 0 <= i < |files| && LiveDoc(idx, files[i].relPath).Some? ==> files[i].relPath in gone
  }

  /** The index after a delta on the paths `gone` and the files `files`. */
  function Updated(idx: Index, gone: seq<Path>, files: seq<ProcessedFile>): Index
    requires AllWellFormed(files)
  {
    ApplyDelta(idx, NextSegmentId(idx), DeadForAll(idx, gone), files)
  }

  // -------------------------------------------------------------- path store

  lemma {:induction false} PathsGrow(paths: seq<Path>, files: seq<ProcessedFile>, n: nat)
    requires n <= |files| && Distinct(paths)
    ensures Distinct(PathsAfter(paths, files, n)) && paths <= PathsAfter(paths, files, n)
    ensures forall i :: 0 <= i < n ==> files[i].relPath in PathsAfter(paths, files, n)
  {
    if n > 0 {
      PathsGrow(paths, files, n - 1);
    }
  }

  lemma {:induction false} PathsPrefix(paths: seq<Path>, files: seq<ProcessedFile>, m: nat, n: nat)
    requires m <= n <= |files|
    ensures PathsAfter(paths, files, m) <= PathsAfter(paths, files, n)
    decreases n
  {
    if m < n {
      PathsPrefix(paths, files, m, n - 1);
    }
  }

  /** A path id given out early still names the path when all files are in. */
  lemma PathIdStays(paths: seq<Path>, files: seq<ProcessedFile>, i: nat)
    requires i < |files| && Distinct(paths)
    ensures var all := PathsAfter(paths, files, |files|);
            var id := PathIndexOr0(PathsAfter(paths, files, i + 1), files[i].relPath);
            id < |all| && all[id] == files[i].relPath
  {
    PathsGrow(paths, files, i + 1);
    PathsPrefix(paths, files, i + 1, |files|);
    hide PathsAfter;
  }

  lemma {:induction false} NewDocAt(paths: seq<Path>, first: DocId, s: SegmentId, files: seq<ProcessedFile>, n: nat,
      i: nat)
    requires i < n <= |files|
    ensures |NewDocs(paths, first, s, files, n)| == n
    ensures NewDocs(paths, first, s, files, n)[i] ==
            NewDocument(first + i, PathIndexOr0(PathsAfter(paths, files, i + 1), files[i].relPath), s, files[i])
    decreases n
  {
    hide PathsAfter, PathIndexOr0, NewDocument;
    NewDocsLength(paths, first, s, files, n);
    NewDocsLength(paths, first, s, files, n - 1);
    if i < n - 1 {
      NewDocAt(paths, first, s, files, n - 1, i);
    }
  }

  // ------------------------------------------------------------- doc table

  lemma {:induction false} DeadAre(idx: Index, gone: seq<Path>, d: DocId)
    ensures d in DeadForAll(idx, gone) <==>
            exists k :: 0 <= k < |gone| && LiveDoc(idx, gone[k]).Some? && LiveDoc(idx, gone[k]).value.docId == d
    decreases |gone|
  {
    if gone != [] {
      var n := |gone| - 1;
      DeadAre(idx, gone[..n], d);
      hide LiveDoc;
      if d in DeadForAll(idx, gone[..n]) {
        var k :| 0 <= k < n && LiveDoc(idx, gone[..n][k]).Some? && LiveDoc(idx, gone[..n][k]).value.docId == d;
        assert gone[..n][k] == gone[k];
      }
      if k :| 0 <= k < |gone| && LiveDoc(idx, gone[k]).Some? && LiveDoc(idx, gone[k]).value.docId == d {
        if k < n { assert gone[..n][k] == gone[k]; }
      }
    }
  }

  /** A valid document is buried exactly when its path is in the list. */
  lemma BuriedIff(idx: Index, gone: seq<Path>, i: nat)
    requires Valid(idx) && i < |idx.docs| && idx.docs[i].IsValid()
    ensures idx.docs[i].docId in DeadForAll(idx, gone) <==> idx.paths[idx.docs[i].pathId] in gone
  {
    var p := idx.paths[idx.docs[i].pathId];
    LiveDocIs(idx, i);
    DeadAre(idx, gone, idx.docs[i].docId);
    hide LiveDoc, DeadForAll;
    if k :| 0 <= k < |gone| && LiveDoc(idx, gone[k]).Some? && LiveDoc(idx, gone[k]).value.docId == idx.docs[i].docId {
      var doc := LiveDoc(idx, gone[k]).value;
      SameIdSameDoc(idx, doc, i);
    }
    if p in gone {
      var k :| 0 <= k < |gone| && gone[k] == p;
    }
  }

  lemma SameIdSameDoc(idx: Index, doc: Document, i: nat)
    requires AscendingIds(idx.docs) && doc in idx.docs && i < |idx.docs| && doc.docId == idx.docs[i].docId
    ensures doc == idx.docs[i]
  {
    var j :| 0 <= j < |idx.docs| && idx.docs[j] == doc;
  }

  /** Entry `k` of the updated table is the document of a file just added. */
  ghost predicate IsNewDoc(u: Index, k: nat, d: DocId, s: SegmentId, f: ProcessedFile) {
    && k < |u.docs| && u.docs[k].pathId < |u.paths| && u.paths[u.docs[k].pathId] == f.relPath
    && u.docs[k] == NewDocument(d, u.docs[k].pathId, s, f)
  }

  /** Entry `i` of the updated table is the old one, unless its path was buried. */
  ghost predicate IsOldDoc(idx: Index, u: Index, gone: seq<Path>, i: nat)
    requires PathIdsIn(idx.docs, |idx.paths|)
  {
    && i < |idx.docs| && i < |u.docs|
    && u.docs[i].docId == idx.docs[i].docId
    && u.docs[i].pathId == idx.docs[i].pathId
    && u.docs[i].segmentId == idx.docs[i].segmentId
    && (u.docs[i].IsValid() <==> idx.docs[i].IsValid() && idx.paths[idx.docs[i].pathId] !in gone)
    && (u.docs[i].IsValid() ==> u.docs[i] == idx.docs[i])
  }

  lemma UpdatedShape(idx: Index, gone: seq<Path>, files: seq<ProcessedFile>)
    requires AllWellFormed(files)
    ensures var u := Updated(idx, gone, files);
            var added := NewDocs(idx.paths, MaxId(idx.docs) + 1, NextSegmentId(idx), files, |files|);
            && u.docs == Bury(idx.docs, DeadForAll(idx, gone)) + added && |added| == |files|
            && u.paths == PathsAfter(idx.paths, files, |files|)
            && u.base == idx.base
            && u.segments == (if files == [] then idx.segments
                              else idx.segments[NextSegmentId(idx) := BuildSegment(MaxId(idx.docs) + 1, files)])
            && u.deltas ==
               (if DeadForAll(idx, gone) == [] && files == [] then idx.deltas else idx.deltas + [NextSegmentId(idx)])
  {
    NewDocsLength(idx.paths, MaxId(idx.docs) + 1, NextSegmentId(idx), files, |files|);
    var dead := DeadForAll(idx, gone);
    if dead == [] {
      assert Bury(idx.docs, dead) == idx.docs;
    }
    hide NextSegmentId, MaxId, DeadForAll, BuildSegment;
  }

  lemma OldDoc(idx: Index, gone: seq<Path>, files: seq<ProcessedFile>, i: nat)
    requires Valid(idx) && AllWellFormed(files) && i < |idx.docs|
    ensures IsOldDoc(idx, Updated(idx, gone, files), gone, i)
  {
    UpdatedShape(idx, gone, files);
    if idx.docs[i].IsValid() {
      BuriedIff(idx, gone, i);
    }
    hide Updated, NewDocs, DeadForAll, PathsAfter, NextSegmentId, MaxId, BuildSegment;
  }

  lemma NewDoc(idx: Index, gone: seq<Path>, files: seq<ProcessedFile>, j: nat)
    requires Distinct(idx.paths) && AllWellFormed(files) && j < |files|
    ensures IsNewDoc(Updated(idx, gone, files), |idx.docs| + j, MaxId(idx.docs) + 1 + j, NextSegmentId(idx), files[j])
  {
    hide Updated, NewDocs, DeadForAll, PathsAfter, NextSegmentId, MaxId, BuildSegment, PathIndexOr0, Bury,
        AllWellFormed;
    UpdatedShape(idx, gone, files);
    NewDocAt(idx.paths, MaxId(idx.docs) + 1, NextSegmentId(idx), files, |files|, j);
    PathIdStays(idx.paths, files, j);
  }

  /** The updated table, entry by entry. */
  ghost predicate TableIs(idx: Index, u: Index, gone: seq<Path>, files: seq<ProcessedFile>)
    requires PathIdsIn(idx.docs, |idx.paths|)
  {
    && |u.docs| == |idx.docs| + |files|
    && (forall i :: 0 <= i < |idx.docs| ==> IsOldDoc(idx, u, gone, i))
    && (forall j :: 0 <= j < |files| ==>
        IsNewDoc(u, |idx.docs| + j, MaxId(idx.docs) + 1 + j, NextSegmentId(idx), files[j]))
    && idx.paths <= u.paths && Distinct(u.paths)
  }

  lemma ValidParts(idx: Index)
    requires Valid(idx)
    ensures PathIdsIn(idx.docs, |idx.paths|) && Distinct(idx.paths)
  {
  }

  lemma UpdatedTable(idx: Index, gone: seq<Path>, files: seq<ProcessedFile>)
    requires Valid(idx) && AllWellFormed(files)
    ensures TableIs(idx, Updated(idx, gone, files), gone, files)
  {
    hide Updated, NewDocs, DeadForAll, PathsAfter, NextSegmentId, MaxId, BuildSegment, Bury, IsOldDoc, IsNewDoc,
        Distinct, Valid, AllWellFormed, ApplyDelta;
    assert PathIdsIn(idx.docs, |idx.paths|) && Distinct(idx.paths) by { ValidParts(idx); }
    UpdatedShape(idx, gone, files);
    PathsGrow(idx.paths, files, |files|);
    var u := Updated(idx, gone, files);
    forall i | 0 <= i < |idx.docs|
      ensures IsOldDoc(idx, u, gone, i)
    {
      OldDoc(idx, gone, files, i);
    }
    forall j | 0 <= j < |files|
      ensures IsNewDoc(u, |idx.docs| + j, MaxId(idx.docs) + 1 + j, NextSegmentId(idx), files[j])
    {
      NewDoc(idx, gone, files, j);
    }
  }

  // ----------------------------------------------------------- the invariants

  lemma KeepsIds(idx: Index, u: Index, gone: seq<Path>, files: seq<ProcessedFile>)
    requires Valid(idx) && TableIs(idx, u, gone, files)
    ensures AscendingIds(u.docs) && PathIdsIn(u.docs, |u.paths|)
  {
    MaxIdBounds(idx.docs);
    hide MaxId, NextSegmentId;
    forall i | 0 <= i < |u.docs|
      ensures u.docs[i].docId >= 1 && u.docs[i].pathId < |u.paths|
      ensures i < |idx.docs| ==> u.docs[i].docId == idx.docs[i].docId
      ensures i >= |idx.docs| ==> u.docs[i].docId == MaxId(idx.docs) + 1 + (i - |idx.docs|)
    {
      if i < |idx.docs| {
        assert IsOldDoc(idx, u, gone, i);
      } else {
        var j := i - |idx.docs|;
        assert IsNewDoc(u, |idx.docs| + j, MaxId(idx.docs) + 1 + j, NextSegmentId(idx), files[j]);
      }
    }
  }

  /** The path of an entry of the updated table. */
  function PathOf(u: Index, k: nat): Path
    requires k < |u.docs|
  {
    if u.docs[k].pathId < |u.paths| then u.paths[u.docs[k].pathId] else ""
  }

  lemma EntryPath(idx: Index, u: Index, gone: seq<Path>, files: seq<ProcessedFile>, k: nat)
    requires Valid(idx) && TableIs(idx, u, gone, files) && k < |u.docs|
    ensures u.docs[k].pathId < |u.paths|
    ensures k < |idx.docs| ==> PathOf(u, k) == idx.paths[idx.docs[k].pathId]
    ensures k >= |idx.docs| ==> PathOf(u, k) == files[k - |idx.docs|].relPath && u.docs[k].IsValid()
    ensures k < |idx.docs| && u.docs[k].IsValid() ==>
            idx.docs[k].IsValid() && PathOf(u, k) !in gone && LiveDoc(idx, PathOf(u, k)) == Some(idx.docs[k])
  {
    if k < |idx.docs| {
      assert IsOldDoc(idx, u, gone, k);
      if idx.docs[k].IsValid() { LiveDocIs(idx, k); }
      hide LiveDoc;
    } else {
      var j := k - |idx.docs|;
      assert IsNewDoc(u, |idx.docs| + j, MaxId(idx.docs) + 1 + j, NextSegmentId(idx), files[j]);
    }
  }

  /** Two valid entries of the updated table do not share a path. */
  lemma TwoEntries(idx: Index, u: Index, gone: seq<Path>, files: seq<ProcessedFile>, i: nat, j: nat)
    requires Valid(idx) && TableIs(idx, u, gone, files) && i < j < |u.docs|
    requires u.docs[i].IsValid() && u.docs[j].IsValid()
    requires DistinctPaths(files) && BuriesWhatItAdds(idx, gone, files)
    ensures u.docs[i].pathId != u.docs[j].pathId
  {
    EntryPath(idx, u, gone, files, i);
    EntryPath(idx, u, gone, files, j);
    if j < |idx.docs| {
      assert IsOldDoc(idx, u, gone, i) && IsOldDoc(idx, u, gone, j);
    } else if i < |idx.docs| {
      var f := files[j - |idx.docs|];
      assert LiveDoc(idx, f.relPath).Some? ==> f.relPath in gone;
    }
  }

  lemma RepeatedPathClashes(idx: Index, u: Index, gone: seq<Path>, files: seq<ProcessedFile>, i: nat, j: nat)
    requires Valid(idx) && TableIs(idx, u, gone, files)
    requires i < j < |files| && files[i].relPath == files[j].relPath
    ensures !OneLive(u.docs)
  {
    var m := |idx.docs|;
    EntryPath(idx, u, gone, files, m + i);
    EntryPath(idx, u, gone, files, m + j);
    assert u.docs[m + i].pathId == u.docs[m + j].pathId;
  }

  lemma UnburiedPathClashes(idx: Index, u: Index, gone: seq<Path>, files: seq<ProcessedFile>, j: nat)
    requires Valid(idx) && TableIs(idx, u, gone, files)
    requires j < |files| && LiveDoc(idx, files[j].relPath).Some? && files[j].relPath !in gone
    ensures !OneLive(u.docs)
  {
    var m := |idx.docs|;
    var doc := LiveDoc(idx, files[j].relPath).value;
    var i :| 0 <= i < m && idx.docs[i] == doc;
    assert IsOldDoc(idx, u, gone, i);
    EntryPath(idx, u, gone, files, i);
    EntryPath(idx, u, gone, files, m + j);
    assert u.docs[i].pathId == u.docs[m + j].pathId;
  }

  /** With both conditions no path has two valid documents; without either one some path does. */
  lemma OneLiveIff(idx: Index, gone: seq<Path>, files: seq<ProcessedFile>)
    requires Valid(idx) && AllWellFormed(files)
    ensures OneLive(Updated(idx, gone, files).docs) <==> DistinctPaths(files) && BuriesWhatItAdds(idx, gone, files)
  {
    UpdatedTable(idx, gone, files);
    var u := Updated(idx, gone, files);
    hide Updated, LiveDoc, Valid, TableIs, AllWellFormed;
    if !DistinctPaths(files) {
      var i, j :| 0 <= i < j < |files| && files[i].relPath == files[j].relPath;
      RepeatedPathClashes(idx, u, gone, files, i, j);
    } else if !BuriesWhatItAdds(idx, gone, files) {
      var j :| 0 <= j < |files| && LiveDoc(idx, files[j].relPath).Some? && files[j].relPath !in gone;
      UnburiedPathClashes(idx, u, gone, files, j);
    } else {
      forall i, j | 0 <= i < j < |u.docs| && u.docs[i].IsValid() && u.docs[j].IsValid()
        ensures u.docs[i].pathId != u.docs[j].pathId
      {
        TwoEntries(idx, u, gone, files, i, j);
      }
    }
  }

  // ------------------------------------------------------------ the segments

  lemma NextIsFresh(idx: Index)
    requires SegmentOrder(idx)
    ensures NextSegmentId(idx) !in Active(idx) && NextSegmentId(idx) >= 1
    ensures forall k :: 0 <= k < |idx.deltas| ==> idx.deltas[k] < NextSegmentId(idx)
    ensures idx.base.Some? ==> idx.base.value < NextSegmentId(idx)
  {
    if idx.deltas != [] {
      assert forall k :: 0 <= k < |idx.deltas| ==> idx.deltas[k] in idx.deltas;
      assert idx.base.Some? ==> idx.base.value < idx.deltas[0];
    }
  }

  lemma AppendSegment(idx: Index, u: Index, s: SegmentId)
    requires SegmentOrder(idx) && s == NextSegmentId(idx) && u.base == idx.base && u.deltas == idx.deltas + [s]
    ensures SegmentOrder(u) && Active(u) == Active(idx) + [s]
  {
    NextIsFresh(idx);
    hide NextSegmentId;
    assert Active(u) == Active(idx) + [s];
  }

  lemma KeepsSegmentOrder(idx: Index, gone: seq<Path>, files: seq<ProcessedFile>)
    requires SegmentOrder(idx) && AllWellFormed(files)
    ensures var u := Updated(idx, gone, files);
            && SegmentOrder(u)
            && (forall s :: s in Active(idx) ==> s in Active(u))
            && (files != [] ==> NextSegmentId(idx) in Active(u))
  {
    hide NextSegmentId, SegmentOrder, Updated;
    UpdatedShape(idx, gone, files);
    var u, s := Updated(idx, gone, files), NextSegmentId(idx);
    if u.deltas == idx.deltas {
      SameSegments(idx, u);
    } else {
      AppendSegment(idx, u, s);
    }
  }

  lemma SameSegments(idx: Index, u: Index)
    requires SegmentOrder(idx) && u.base == idx.base && u.deltas == idx.deltas
    ensures SegmentOrder(u) && Active(u) == Active(idx)
  {
    assert Active(u) == Active(idx);
  }

  /** An owner in the old table is an owner in the updated one. */
  lemma OwnsStays(idx: Index, u: Index, gone: seq<Path>, files: seq<ProcessedFile>, d: DocId, s: SegmentId)
    requires Valid(idx) && TableIs(idx, u, gone, files) && Owns(idx.docs, d, s)
    ensures Owns(u.docs, d, s)
  {
    var i :| 0 <= i < |idx.docs| && idx.docs[i].docId == d && idx.docs[i].segmentId == s;
    assert IsOldDoc(idx, u, gone, i);
    assert u.docs[i].docId == d && u.docs[i].segmentId == s;
  }

  lemma NewOwns(idx: Index, u: Index, gone: seq<Path>, files: seq<ProcessedFile>, d: DocId)
    requires Valid(idx) && TableIs(idx, u, gone, files)
    requires MaxId(idx.docs) + 1 <= d < MaxId(idx.docs) + 1 + |files|
    ensures Owns(u.docs, d, NextSegmentId(idx))
  {
    var j := d - MaxId(idx.docs) - 1;
    hide MaxId, NextSegmentId;
    assert IsNewDoc(u, |idx.docs| + j, MaxId(idx.docs) + 1 + j, NextSegmentId(idx), files[j]);
    var k := |idx.docs| + j;
    assert u.docs[k].docId == d && u.docs[k].segmentId == NextSegmentId(idx);
  }

  /** What a segment of the updated index holds. */
  ghost predicate SegmentsAre(idx: Index, u: Index, files: seq<ProcessedFile>)
    requires AllWellFormed(files)
  {
    u.segments == if files == [] then idx.segments
                  else idx.segments[NextSegmentId(idx) := BuildSegment(MaxId(idx.docs) + 1, files)]
  }

  lemma {:induction false} NewSegmentSound(idx: Index, u: Index, gone: seq<Path>, files: seq<ProcessedFile>)
    requires Valid(idx) && AllWellFormed(files) && TableIs(idx, u, gone, files) && SegmentsAre(idx, u, files)
    requires files != [] && NextSegmentId(idx) in Active(u)
    ensures SegmentSound(u, NextSegmentId(idx))
  {
    var first := MaxId(idx.docs) + 1;
    var seg := BuildSegment(first, files);
    BuiltSound(first, files);
    assert u.segments[NextSegmentId(idx)] == seg;
    hide BuildSegment, NextSegmentId, MaxId, AllWellFormed, Mentions, Sorted, Owns, Active, TableIs, Valid;
    forall d: DocId | Mentions(seg, d)
      ensures Owns(u.docs, d, NextSegmentId(idx))
    {
      NewOwns(idx, u, gone, files, d);
    }
  }

  lemma BuiltSound(first: DocId, files: seq<ProcessedFile>)
    requires AllWellFormed(files)
    ensures Sorted(BuildSegment(first, files))
    ensures forall d: DocId :: Mentions(BuildSegment(first, files), d) ==> first <= d < first + |files|
  {
    BuiltFirst(first, files, |files|);
    hide BuildFirst, Mentions, Sorted, Recalls;
  }

  lemma OldSegmentSound(idx: Index, u: Index, gone: seq<Path>, files: seq<ProcessedFile>, s: SegmentId)
    requires Valid(idx) && TableIs(idx, u, gone, files) && s in idx.segments && s in u.segments
    requires s in Active(u) && u.segments[s] == idx.segments[s]
    ensures SegmentSound(u, s)
  {
    assert SegmentSound(idx, s);
    hide Mentions, Owns, TableIs, Active, Sorted;
    forall d: DocId | Mentions(idx.segments[s], d)
      ensures Owns(u.docs, d, s)
    {
      OwnsStays(idx, u, gone, files, d, s);
    }
  }

  /** How the updated index extends the old one. */
  ghost predicate Extends(idx: Index, u: Index, gone: seq<Path>, files: seq<ProcessedFile>)
    requires PathIdsIn(idx.docs, |idx.paths|) && AllWellFormed(files)
  {
    && TableIs(idx, u, gone, files)
    && SegmentsAre(idx, u, files)
    && (forall s :: s in Active(idx) ==> s in Active(u))
    && (files != [] ==> NextSegmentId(idx) in Active(u))
    && NextSegmentId(idx) !in Active(idx)
  }

  lemma UpdatedExtends(idx: Index, gone: seq<Path>, files: seq<ProcessedFile>)
    requires Valid(idx) && AllWellFormed(files)
    ensures Extends(idx, Updated(idx, gone, files), gone, files)
  {
    hide Updated, NextSegmentId, Active, TableIs, NewDocs, Bury, PathsAfter, DeadForAll, AllWellFormed, BuildSegment;
    UpdatedTable(idx, gone, files);
    UpdatedShape(idx, gone, files);
    KeepsSegmentOrder(idx, gone, files);
    NextIsFresh(idx);
  }

  lemma KeepsSegmentsSound(idx: Index, u: Index, gone: seq<Path>, files: seq<ProcessedFile>)
    requires Valid(idx) && AllWellFormed(files) && Extends(idx, u, gone, files)
    ensures SegmentsSound(u)
  {
    hide NextSegmentId, MaxId, TableIs, AllWellFormed, Active, SegmentOrder, BuildSegment, OneLive, SegmentsPresent;
    forall s | s in u.segments
      ensures SegmentSound(u, s)
    {
      if files != [] && s == NextSegmentId(idx) {
        NewSegmentSound(idx, u, gone, files);
      } else {
        assert SegmentSound(idx, s);
        hide SegmentSound;
        OldSegmentSound(idx, u, gone, files, s);
      }
    }
  }

  lemma PresentAt(idx: Index, u: Index, gone: seq<Path>, files: seq<ProcessedFile>, k: nat)
    requires Valid(idx) && AllWellFormed(files) && Extends(idx, u, gone, files)
    requires k < |u.docs| && u.docs[k].IsValid()
    ensures u.docs[k].segmentId in Active(u) && u.docs[k].segmentId in u.segments
    ensures k < |idx.docs| ==> u.docs[k].segmentId != NextSegmentId(idx)
  {
    hide NextSegmentId, MaxId, AllWellFormed, Active, SegmentOrder, BuildSegment, OneLive, SegmentsSound;
    if k < |idx.docs| {
      assert IsOldDoc(idx, u, gone, k);
    } else {
      var j := k - |idx.docs|;
      assert IsNewDoc(u, |idx.docs| + j, MaxId(idx.docs) + 1 + j, NextSegmentId(idx), files[j]);
    }
  }

  lemma KeepsSegmentsPresent(idx: Index, u: Index, gone: seq<Path>, files: seq<ProcessedFile>)
    requires Valid(idx) && AllWellFormed(files) && Extends(idx, u, gone, files)
    ensures SegmentsPresent(u)
  {
    hide Valid, Extends, Active, NextSegmentId, AllWellFormed, PathIdsIn;
    forall k | 0 <= k < |u.docs| && u.docs[k].IsValid()
      ensures u.docs[k].segmentId in Active(u) && u.docs[k].segmentId in u.segments
    {
      PresentAt(idx, u, gone, files, k);
    }
  }

  /** A delta that buries what it re-adds keeps the whole invariant. */
  lemma DeltaKeepsValid(idx: Index, gone: seq<Path>, files: seq<ProcessedFile>)
    requires Valid(idx) && AllWellFormed(files)
    requires DistinctPaths(files) && BuriesWhatItAdds(idx, gone, files)
    ensures Valid(Updated(idx, gone, files))
  {
    hide Updated, DistinctPaths, BuriesWhatItAdds, LiveDoc, AllWellFormed, OneLive, SegmentOrder, SegmentsSound,
        SegmentsPresent, AscendingIds;
    UpdatedExtends(idx, gone, files);
    var u := Updated(idx, gone, files);
    KeepsIds(idx, u, gone, files);
    OneLiveIff(idx, gone, files);
    KeepsSegmentOrder(idx, gone, files);
    KeepsSegmentsSound(idx, u, gone, files);
    KeepsSegmentsPresent(idx, u, gone, files);
  }

  // -------------------------------------------------------------- what it means

  /** The file of the delta for a path, among the first `n`. */
  function FileFor(files: seq<ProcessedFile>, n: nat, p: Path): (r: Option<nat>)
    requires n <= |files|
    ensures r.Some? ==> r.value < n && files[r.value].relPath == p
    ensures r.None? ==> forall i :: 0 <= i < n ==> files[i].relPath != p
  {
    if n == 0 then None
    else if files[n - 1].relPath == p then Some(n - 1)
    else FileFor(files, n - 1, p)
  }

  /** What extraction says of a file. */
  function KnownOf(f: ProcessedFile): Known
    requires WellFormedFile(f)
  {
    Known(f.mtime, f.size, f.language, f.minified, DataOf(f))
  }

  lemma BuiltRecalls(first: DocId, files: seq<ProcessedFile>, j: nat)
    requires AllWellFormed(files) && j < |files|
    ensures Recalls(BuildSegment(first, files), first + j, files[j])
  {
    BuiltFirst(first, files, |files|);
    hide BuildFirst, Recalls, Sorted, Mentions;
  }

  lemma RecallNew(idx: Index, u: Index, gone: seq<Path>, files: seq<ProcessedFile>, j: nat)
    requires Valid(idx) && AllWellFormed(files) && Extends(idx, u, gone, files) && j < |files|
    requires PathIdsIn(u.docs, |u.paths|) && Distinct(u.paths) && OneLive(u.docs)
    ensures LiveDoc(u, files[j].relPath).Some?
    ensures Lookup(u, files[j].relPath) == Some(KnownOf(files[j]))
    ensures TrigramsOf(u, LiveDoc(u, files[j].relPath).value) == Elements(files[j].trigrams)
  {
    hide NextSegmentId, MaxId, LiveDoc, DataIn, DataOf, TrigramsIn, BuildSegment, PathIdsIn, Distinct, OneLive, Active,
        AllWellFormed, IsOldDoc;
    var k, first, s := |idx.docs| + j, MaxId(idx.docs) + 1, NextSegmentId(idx);
    assert IsNewDoc(u, k, first + j, s, files[j]);
    hide TableIs, Valid;
    BuiltRecalls(first, files, j);
    LiveDocIs(u, k);
  }

  lemma RecallOld(idx: Index, u: Index, gone: seq<Path>, files: seq<ProcessedFile>, i: nat)
    requires Valid(idx) && AllWellFormed(files) && Extends(idx, u, gone, files)
    requires PathIdsIn(u.docs, |u.paths|) && Distinct(u.paths) && OneLive(u.docs)
    requires i < |idx.docs| && idx.docs[i].IsValid() && idx.paths[idx.docs[i].pathId] !in gone
    ensures var p := idx.paths[idx.docs[i].pathId];
            && LiveDoc(u, p) == LiveDoc(idx, p) == Some(idx.docs[i])
            && Lookup(u, p) == Lookup(idx, p)
            && TrigramsOf(u, idx.docs[i]) == TrigramsOf(idx, idx.docs[i])
  {
    assert IsOldDoc(idx, u, gone, i);
    PresentAt(idx, u, gone, files, i);
    hide NextSegmentId, MaxId, LiveDoc, DataIn, TrigramsIn, BuildSegment, Active, SegmentOrder, SegmentsSound,
        AllWellFormed, PathIdsIn, Distinct, OneLive;
    LiveDocIs(u, i);
    LiveDocIs(idx, i);
    assert u.paths[u.docs[i].pathId] == idx.paths[idx.docs[i].pathId];
  }

  /** The updated index knows of no other path. */
  lemma NothingElse(idx: Index, u: Index, gone: seq<Path>, files: seq<ProcessedFile>, p: Path)
    requires Valid(idx) && TableIs(idx, u, gone, files)
    requires FileFor(files, |files|, p).None? && (p in gone || LiveDoc(idx, p).None?)
    ensures LiveDoc(u, p).None?
  {
    if LiveDoc(u, p).Some? {
      var doc := LiveDoc(u, p).value;
      var k :| 0 <= k < |u.docs| && u.docs[k] == doc;
      EntryPath(idx, u, gone, files, k);
    }
  }

  /**
    The meaning of a delta, path by path: an added file is known as extraction
    saw it, a buried path is forgotten, everything else is as it was.
  */
  lemma DeltaMeaning(idx: Index, gone: seq<Path>, files: seq<ProcessedFile>, p: Path)
    requires Valid(idx) && AllWellFormed(files)
    requires DistinctPaths(files) && BuriesWhatItAdds(idx, gone, files)
    ensures Lookup(Updated(idx, gone, files), p) ==
            match FileFor(files, |files|, p)
            case Some(j) => Some(KnownOf(files[j]))
            case None => if p in gone then None else Lookup(idx, p)
  {
    hide Updated, LiveDoc, FileFor, DistinctPaths, BuriesWhatItAdds, AllWellFormed, OneLive, SegmentOrder,
        SegmentsSound, SegmentsPresent, AscendingIds, KnownOf, DataIn;
    UpdatedExtends(idx, gone, files);
    DeltaKeepsValid(idx, gone, files);
    var u, at := Updated(idx, gone, files), FileFor(files, |files|, p);
    if at.Some? {
      RecallNew(idx, u, gone, files, at.value);
    } else if p in gone || LiveDoc(idx, p).None? {
      NothingElse(idx, u, gone, files, p);
    } else {
      var doc := LiveDoc(idx, p).value;
      var i :| 0 <= i < |idx.docs| && idx.docs[i] == doc;
      RecallOld(idx, u, gone, files, i);
    }
  }

  /** Trigrams too: an added file has its own, an untouched path those it had. */
  lemma DeltaTrigrams(idx: Index, gone: seq<Path>, files: seq<ProcessedFile>, p: Path)
    requires Valid(idx) && AllWellFormed(files)
    requires DistinctPaths(files) && BuriesWhatItAdds(idx, gone, files)
    ensures var u, at := Updated(idx, gone, files), FileFor(files, |files|, p);
            && (at.Some? ==>
                LiveDoc(u, p).Some? && TrigramsOf(u, LiveDoc(u, p).value) == Elements(files[at.value].trigrams))
            && (at.None? && p !in gone && LiveDoc(idx, p).Some? ==>
                LiveDoc(u, p) == LiveDoc(idx, p)
                  && TrigramsOf(u, LiveDoc(u, p).value) == TrigramsOf(idx, LiveDoc(idx, p).value))
  {
    hide Updated, LiveDoc, FileFor, DistinctPaths, BuriesWhatItAdds, AllWellFormed, OneLive, SegmentOrder,
        SegmentsSound, SegmentsPresent, AscendingIds, KnownOf, DataIn;
    UpdatedExtends(idx, gone, files);
    DeltaKeepsValid(idx, gone, files);
    var u, at := Updated(idx, gone, files), FileFor(files, |files|, p);
    if at.Some? {
      RecallNew(idx, u, gone, files, at.value);
    } else if p !in gone && LiveDoc(idx, p).Some? {
      var doc := LiveDoc(idx, p).value;
      var i :| 0 <= i < |idx.docs| && idx.docs[i] == doc;
      RecallOld(idx, u, gone, files, i);
    }
  }

  /** The same of trigrams, path by path. */
  lemma DeltaGrams(idx: Index, gone: seq<Path>, files: seq<ProcessedFile>, p: Path)
    requires Valid(idx) && AllWellFormed(files)
    requires DistinctPaths(files) && BuriesWhatItAdds(idx, gone, files)
    ensures LiveTrigrams(Updated(idx, gone, files), p) ==
            match FileFor(files, |files|, p)
            case Some(j) => Elements(files[j].trigrams)
            case None => if p in gone then {} else LiveTrigrams(idx, p)
  {
    hide Valid, Updated, LiveDoc, FileFor, DistinctPaths, BuriesWhatItAdds, AllWellFormed, KnownOf, TrigramsOf, Recall;
    DeltaMeaning(idx, gone, files, p);
    DeltaTrigrams(idx, gone, files, p);
  }
}
