/**
  When an update ends in a compaction (src/index/build.rs:920-940,
  src/server/daemon_core.rs:1160-1179, src/index/writer.rs:1063-1066), told by
  counting documents and paths, and what the compaction leaves.
*/
module Fragmentation {
  import opened Prelude
  import opened Index
  import opened SegmentBuilder
  import opened DeltaWriter
  import opened DeltaSafety
  import opened Extraction
  import opened Build
  import Compact
  import CompactSafety

  /** The places of the documents that are buried. */
  function Buried(docs: seq<Document>): set<nat> {
    set i: nat | i < |docs| && docs[i].tombstone
  }

  lemma {:induction false} CountIsBuried(docs: seq<Document>)
    ensures Compact.TombstoneCount(docs) == |Buried(docs)|
    decreases |docs|
  {
    if docs != [] {
      var init, n := docs[..|docs| - 1], |docs| - 1;
      CountIsBuried(init);
      assert Buried(docs) == Buried(init) + if docs[n].tombstone then {n} else {};
    }
  }

  // ------------------------------------------------------- what is left in the end

  /** One segment in use, and no document buried. */
  ghost predicate Compacted(u: Index) {
    |Active(u)| == 1 && Buried(u.docs) == {}
  }

  lemma CompactionLeaves(idx: Index, c: Index)
    requires Valid(idx) && Compact.IsCompaction(idx, c)
    ensures Compacted(c)
  {
    hide Compact.IsCompaction, Valid;
    CompactSafety.TableSizes(idx, c);
    forall k | 0 <= k < |c.docs|
      ensures !c.docs[k].tombstone
    {
      CompactSafety.EntryIs(idx, c, k);
    }
  }

  /**
    An index in use with more than 15 percent of its documents buried, or with
    enough deltas since the last build, is left in one segment with no document
    buried; any other is left as it is.
  */
  lemma SettlesIff(idx: Index, deltaBaseline: nat, segmentThreshold: nat, u: Index)
    requires Valid(idx) && Active(idx) != [] && segmentThreshold > 0
    requires Compact.Settles(idx, deltaBaseline, segmentThreshold, u)
    ensures 100 * |Buried(idx.docs)| > 15 * |idx.docs| || |idx.deltas| >= deltaBaseline + segmentThreshold ==>
            Compacted(u)
    ensures 100 * |Buried(idx.docs)| <= 15 * |idx.docs| && |idx.deltas| < deltaBaseline + segmentThreshold ==> u == idx
  {
    CountIsBuried(idx.docs);
    hide Compact.TombstoneCount, Compact.IsCompaction, Valid, Active, Buried;
    if Compact.Fragmented(idx, deltaBaseline, segmentThreshold) {
      if Compact.NothingToMerge(idx) {
        NoneOf(idx);
      } else {
        CompactionLeaves(idx, u);
      }
    }
  }

  lemma NoneOf(idx: Index)
    ensures |Buried(idx.docs)| == 0 ==> Buried(idx.docs) == {}
  {
  }

  // ------------------------------------------------------- what an update has buried

  /** The places of the live documents of some paths. */
  ghost function LivePlaces(idx: Index, paths: set<Path>): set<nat> {
    set i: nat | i < |idx.docs| && exists p :: p in paths && LiveDoc(idx, p) == Some(idx.docs[i])
  }

  /** As many documents as paths. */
  lemma {:induction false} LivePlacesCount(idx: Index, paths: set<Path>)
    requires AscendingIds(idx.docs) && forall p :: p in paths ==> LiveDoc(idx, p).Some?
    ensures |LivePlaces(idx, paths)| == |paths|
    decreases paths
  {
    hide LiveDoc;
    if paths == {} {
      assert LivePlaces(idx, paths) == {};
    } else {
      var p :| p in paths;
      var rest := paths - {p};
      LivePlacesCount(idx, rest);
      var i := PlaceOf(idx, p);
      OnlyPlace(idx, p, i);
      NoOtherPath(idx, rest, p, i);
      assert LivePlaces(idx, paths) == LivePlaces(idx, rest) + {i};
    }
  }

  lemma PlaceOf(idx: Index, p: Path) returns (i: nat)
    requires LiveDoc(idx, p).Some?
    ensures i < |idx.docs| && LiveDoc(idx, p) == Some(idx.docs[i])
  {
    i :| 0 <= i < |idx.docs| && idx.docs[i] == LiveDoc(idx, p).value;
  }

  lemma OnlyPlace(idx: Index, p: Path, i: nat)
    requires AscendingIds(idx.docs) && i < |idx.docs| && LiveDoc(idx, p) == Some(idx.docs[i])
    ensures forall j :: 0 <= j < |idx.docs| && LiveDoc(idx, p) == Some(idx.docs[j]) ==> j == i
  {
    hide LiveDoc;
    forall j | 0 <= j < |idx.docs| && LiveDoc(idx, p) == Some(idx.docs[j])
      ensures j == i
    {
      assert idx.docs[i].docId == idx.docs[j].docId;
    }
  }

  /** A document has one path, so it is the live document of no other. */
  lemma NoOtherPath(idx: Index, rest: set<Path>, p: Path, i: nat)
    requires p !in rest && i < |idx.docs| && LiveDoc(idx, p) == Some(idx.docs[i])
    ensures i !in LivePlaces(idx, rest)
  {
    forall q | q in rest
      ensures LiveDoc(idx, q) != Some(idx.docs[i])
    {
    }
    hide LiveDoc;
  }

  /** The documents buried by a list of paths are their live ones. */
  lemma {:induction false} DeadAre(idx: Index, ps: seq<Path>, d: DocId)
    ensures d in DeadForAll(idx, ps) <==>
            exists p :: p in ps && LiveDoc(idx, p).Some? && LiveDoc(idx, p).value.docId == d
    decreases |ps|
  {
    hide LiveDoc;
    if ps != [] {
      var init, last := ps[..|ps| - 1], ps[|ps| - 1];
      assert ps == init + [last];
      DeadAre(idx, init, d);
    }
  }

  lemma BuriedOf(docs: seq<Document>, dead: seq<DocId>, more: seq<Document>)
    requires forall i :: 0 <= i < |more| ==> !more[i].tombstone
    ensures Buried(Bury(docs, dead) + more) == Buried(docs) + set i: nat | i < |docs| && docs[i].docId in dead
  {
    var all := Bury(docs, dead) + more;
    forall i: nat
      ensures i in Buried(all) <==> i < |docs| && (docs[i].tombstone || docs[i].docId in dead)
    {
      if i < |docs| {
        assert all[i] == Bury(docs, dead)[i];
      } else if i < |all| {
        assert all[i] == more[i - |docs|];
      }
    }
  }

  lemma DeadPlaces(idx: Index, gone: seq<Path>)
    requires AscendingIds(idx.docs)
    ensures (set i: nat | i < |idx.docs| && idx.docs[i].docId in DeadForAll(idx, gone)) ==
            LivePlaces(idx, Elements(gone))
  {
    hide LiveDoc, DeadForAll, AscendingIds;
    forall i: nat | i < |idx.docs|
      ensures idx.docs[i].docId in DeadForAll(idx, gone) <==> i in LivePlaces(idx, Elements(gone))
    {
      DeadAre(idx, gone, idx.docs[i].docId);
      LiveById(idx, gone, i);
    }
  }

  lemma ValidAscends(idx: Index)
    requires Valid(idx)
    ensures AscendingIds(idx.docs)
  {
    hide AscendingIds;
  }

  /** What is buried after a delta: what was before, and the live documents of the paths. */
  lemma BuriedAfter(idx: Index, gone: seq<Path>, files: seq<ProcessedFile>)
    requires Valid(idx) && AllWellFormed(files)
    ensures Buried(Updated(idx, gone, files).docs) == Buried(idx.docs) + LivePlaces(idx, Elements(gone))
    ensures |Updated(idx, gone, files).docs| == |idx.docs| + |files|
  {
    hide *;
    ValidAscends(idx);
    DocsAfter(idx, gone, files);
    NoneNewBuried(idx.paths, MaxId(idx.docs) + 1, NextSegmentId(idx), files, |files|);
    BuriedOf(idx.docs, DeadForAll(idx, gone),
             NewDocs(idx.paths, MaxId(idx.docs) + 1, NextSegmentId(idx), files, |files|));
    DeadPlaces(idx, gone);
  }

  lemma LiveById(idx: Index, gone: seq<Path>, i: nat)
    requires AscendingIds(idx.docs) && i < |idx.docs|
    ensures (exists p :: p in gone && LiveDoc(idx, p).Some? && LiveDoc(idx, p).value.docId == idx.docs[i].docId) <==>
            exists p :: p in gone && LiveDoc(idx, p) == Some(idx.docs[i])
  {
    forall p | LiveDoc(idx, p).Some? && LiveDoc(idx, p).value.docId == idx.docs[i].docId
      ensures LiveDoc(idx, p) == Some(idx.docs[i])
    {
      var j := PlaceOf(idx, p);
    }
    hide LiveDoc;
  }

  lemma DocsAfter(idx: Index, gone: seq<Path>, files: seq<ProcessedFile>)
    requires AllWellFormed(files)
    ensures var dead := DeadForAll(idx, gone);
            Updated(idx, gone, files).docs ==
            Bury(idx.docs, dead) + NewDocs(idx.paths, MaxId(idx.docs) + 1, NextSegmentId(idx), files, |files|)
  {
    hide DeadForAll, MaxId, NextSegmentId, BuildSegment, PathsAfter, AllWellFormed;
    if DeadForAll(idx, gone) == [] && files == [] {
      assert Bury(idx.docs, []) == idx.docs;
    }
  }

  lemma {:induction false} NoneNewBuried(paths: seq<Path>, first: DocId, s: SegmentId, files: seq<ProcessedFile>,
      n: nat)
    requires n <= |files|
    ensures |NewDocs(paths, first, s, files, n)| == n
    ensures forall i :: 0 <= i < n ==> !NewDocs(paths, first, s, files, n)[i].tombstone
  {
    hide PathsAfter, PathIndexOr0;
    if n > 0 {
      NoneNewBuried(paths, first, s, files, n - 1);
    }
  }

  // ------------------------------------------------------------------ by the paths

  lemma BothDisjoint(idx: Index, gone: set<Path>)
    ensures Buried(idx.docs) !! LivePlaces(idx, gone)
  {
  }

  /** As many documents are buried after an update as before, and one for every path deleted or modified. */
  lemma BuriedByUpdate(idx: Index, diff: IndexDiff, indexed: Indexed, fs: FileSystem, extract: Extractor,
      visible: Visibility)
    requires Valid(idx) && Agrees(extract, visible) && Lists(idx, indexed)
    requires DiffIs(diff, indexed, RejectedMap(idx), fs, visible)
    requires AllWellFormed(ExtractAll(extract, fs, ToIndex(diff)))
    ensures var docs, files := Incremented(idx, diff, fs, extract).docs, ExtractAll(extract, fs, ToIndex(diff));
            && |Buried(docs)| == |Buried(idx.docs)| + |Elements(ToBury(diff))|
            && |docs| == |idx.docs| + |files|
  {
    var gone := Elements(ToBury(diff));
    ValidAscends(idx);
    AllLive(idx, diff, indexed, fs, visible);
    IncrementedDocs(idx, diff, fs, extract);
    hide *;
    BuriedAfter(idx, ToBury(diff), ExtractAll(extract, fs, ToIndex(diff)));
    LivePlacesCount(idx, gone);
    BothDisjoint(idx, gone);
  }

  lemma IncrementedDocs(idx: Index, diff: IndexDiff, fs: FileSystem, extract: Extractor)
    requires AllWellFormed(ExtractAll(extract, fs, ToIndex(diff)))
    ensures Incremented(idx, diff, fs, extract).docs ==
            Updated(idx, ToBury(diff), ExtractAll(extract, fs, ToIndex(diff))).docs
  {
    hide Updated, ExtractAll, Rejections, AllWellFormed;
  }

  /** Whatever the update buries is indexed. */
  lemma AllLive(idx: Index, diff: IndexDiff, indexed: Indexed, fs: FileSystem, visible: Visibility)
    requires Lists(idx, indexed) && DiffIs(diff, indexed, RejectedMap(idx), fs, visible)
    ensures forall p :: p in Elements(ToBury(diff)) ==> LiveDoc(idx, p).Some?
  {
    hide LiveDoc, RejectedMap;
  }

  lemma NothingDead(idx: Index, ps: seq<Path>)
    requires forall p :: p in Elements(ps) ==> LiveDoc(idx, p).Some?
    ensures DeadForAll(idx, ps) == [] <==> ps == []
  {
    hide LiveDoc;
    if ps != [] {
      assert ps[|ps| - 1] in Elements(ps);
    }
  }

  lemma NoElements(ps: seq<Path>)
    ensures |Elements(ps)| == 0 <==> ps == []
  {
    if ps != [] {
      assert ps[0] in Elements(ps);
    }
  }

  /** The index an update wrote is in use. */
  lemma WrittenInUse(idx: Index, diff: IndexDiff, fs: FileSystem, extract: Extractor)
    requires AllWellFormed(ExtractAll(extract, fs, ToIndex(diff))) && HasChanges(idx, diff, fs, extract)
    ensures var u := Incremented(idx, diff, fs, extract);
            |u.deltas| == |idx.deltas| + 1 && Active(u) != []
  {
    var u := Incremented(idx, diff, fs, extract);
    hide DeadForAll, ExtractAll, Rejections, AllWellFormed, MaxId, NextSegmentId, BuildSegment, PathsAfter, NewDocs,
        Bury;
    assert Active(u)[|Active(u)| - 1] == u.deltas[|u.deltas| - 1];
  }

  /**
    What `update_index` leaves of an incremental update, in counts: if anything
    was deleted, modified or added, and the documents buried so far together
    with the paths deleted or modified are more than 15 percent of the documents,
    or there are 15 deltas since the last build, the index is left in one segment
    with no document buried; otherwise it is left as written.
  */
  lemma UpdateCompactsIff(idx: Index, diff: IndexDiff, indexed: Indexed, fs: FileSystem, extract: Extractor,
      visible: Visibility, deltaBaseline: nat, u: Index)
    requires Valid(idx) && Agrees(extract, visible) && Lists(idx, indexed)
    requires DiffIs(diff, indexed, RejectedMap(idx), fs, visible)
    requires AllWellFormed(ExtractAll(extract, fs, ToIndex(diff))) && Leaves(idx, diff, fs, extract, deltaBaseline, u)
    ensures var gone, added := |Elements(ToBury(diff))|, |ExtractAll(extract, fs, ToIndex(diff))|;
            var fragmented := 100 * (|Buried(idx.docs)| + gone) > 15 * (|idx.docs| + added)
                              || |idx.deltas| + 1 >= deltaBaseline + 15;
            && (gone + added > 0 && fragmented ==> Compacted(u))
            && (gone + added == 0 || !fragmented ==> u == Incremented(idx, diff, fs, extract))
  {
    var written, files := Incremented(idx, diff, fs, extract), ExtractAll(extract, fs, ToIndex(diff));
    hide *;
    LeavesIs(idx, diff, fs, extract, deltaBaseline, u);
    AllLive(idx, diff, indexed, fs, visible);
    NothingDead(idx, ToBury(diff));
    NoElements(ToBury(diff));
    ChangesAre(idx, diff, fs, extract);
    BuriedByUpdate(idx, diff, indexed, fs, extract, visible);
    IncrementedIsValid(idx, diff, indexed, fs, extract, visible);
    if HasChanges(idx, diff, fs, extract) {
      WrittenInUse(idx, diff, fs, extract);
      SettlesIff(written, deltaBaseline, 15, u);
    }
  }

  lemma LeavesIs(idx: Index, diff: IndexDiff, fs: FileSystem, extract: Extractor, deltaBaseline: nat, u: Index)
    requires AllWellFormed(ExtractAll(extract, fs, ToIndex(diff))) && Leaves(idx, diff, fs, extract, deltaBaseline, u)
    ensures var written := Incremented(idx, diff, fs, extract);
            if HasChanges(idx, diff, fs, extract) then Compact.Settles(written, deltaBaseline, 15, u) else u == written
  {
    hide Incremented, HasChanges, Compact.Settles;
  }

  lemma ChangesAre(idx: Index, diff: IndexDiff, fs: FileSystem, extract: Extractor)
    ensures HasChanges(idx, diff, fs, extract) <==>
            DeadForAll(idx, ToBury(diff)) != [] || ExtractAll(extract, fs, ToIndex(diff)) != []
  {
    hide DeadForAll, ExtractAll;
  }
}
