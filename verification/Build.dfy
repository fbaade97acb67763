/**
  Building from the command line (src/index/build.rs): a scan compared with the
  index, an incremental update of what differs, and the full build it must agree
  with. Times are whole seconds here, as the scan compares them.
*/
module Build {
  import opened Prelude
  import opened Index
  import opened SegmentBuilder
  import opened DeltaWriter
  import opened DeltaSafety
  import opened Extraction
  import Compact
  import CompactSafety
  import Daemon

  // ------------------------------------------------------------------ the scan

  /** Which files a walk reports: not hidden, ignored, of a binary type, empty or oversized. */
  type Visibility = (Path, File) -> bool

  predicate Visible(visible: Visibility, fs: FileSystem, p: Path) {
    p in fs && visible(p, fs[p])
  }

  /** Only visible files are indexed, under the time the scan sees. */
  ghost predicate Agrees(extract: Extractor, visible: Visibility) {
    && Sound(extract)
    && forall p, f :: extract(p, f).Some? ==> visible(p, f) && extract(p, f).value.mtime == f.mtime
  }

  function PathsOf(scanned: seq<(Path, nat)>): (r: seq<Path>)
    ensures |r| == |scanned| && forall i :: 0 <= i < |scanned| ==> r[i] == scanned[i].0
  {
    seq(|scanned|, i requires 0 <= i < |scanned| => scanned[i].0)
  }

  /** The entries a walk of the file system collects, in some order. */
  ghost predicate Scans(scanned: seq<(Path, nat)>, fs: FileSystem, visible: Visibility) {
    && Distinct(PathsOf(scanned))
    && (forall i :: 0 <= i < |scanned| ==> Visible(visible, fs, scanned[i].0) && scanned[i].1 == fs[scanned[i].0].mtime)
    && (forall p :: Visible(visible, fs, p) ==> p in PathsOf(scanned))
  }

  // ------------------------------------------------------------ what is indexed

  type Indexed = map<Path, (DocId, nat)>

  /** A table of the valid documents by path, with their times. */
  ghost predicate Lists(idx: Index, m: Indexed) {
    forall p :: (p in m <==> LiveDoc(idx, p).Some?)
      && (p in m ==> m[p] == (LiveDoc(idx, p).value.docId, LiveDoc(idx, p).value.mtime))
  }

  /** Document `i` is valid and has this path. */
  predicate LiveAt(idx: Index, i: nat, p: Path) {
    i < |idx.docs| && idx.docs[i].IsValid() && idx.docs[i].pathId < |idx.paths| && idx.paths[idx.docs[i].pathId] == p
  }

  /** The table of the first `n` documents. */
  ghost predicate ListsFirst(idx: Index, m: Indexed, n: nat)
    requires n <= |idx.docs|
  {
    && (forall p :: p in m ==> exists j :: 0 <= j < n && LiveAt(idx, j, p))
    && (forall j, p :: 0 <= j < n && LiveAt(idx, j, p) ==> p in m && m[p] == (idx.docs[j].docId, idx.docs[j].mtime))
  }

  lemma ListsOneMore(idx: Index, m: Indexed, n: nat)
    requires Valid(idx) && n < |idx.docs| && ListsFirst(idx, m, n)
    ensures var doc := idx.docs[n];
            var listed := doc.IsValid() && doc.pathId < |idx.paths|;
            ListsFirst(idx, if listed then m[idx.paths[doc.pathId] := (doc.docId, doc.mtime)] else m, n + 1)
  {
    var doc := idx.docs[n];
    if doc.IsValid() && doc.pathId < |idx.paths| {
      OnlyLive(idx, n);
      hide Valid;
      ListsAdded(idx, m, n);
    }
  }

  lemma ListsAdded(idx: Index, m: Indexed, n: nat)
    requires n < |idx.docs| && ListsFirst(idx, m, n)
    requires idx.docs[n].IsValid() && idx.docs[n].pathId < |idx.paths|
    requires forall j, p :: 0 <= j < n && LiveAt(idx, j, p) ==> p != idx.paths[idx.docs[n].pathId]
    ensures ListsFirst(idx, m[idx.paths[idx.docs[n].pathId] := (idx.docs[n].docId, idx.docs[n].mtime)], n + 1)
  {
    var doc := idx.docs[n];
    var p := idx.paths[doc.pathId];
    assert LiveAt(idx, n, p);
    var more := m[p := (doc.docId, doc.mtime)];
    forall q | q in more
      ensures exists j :: 0 <= j < n + 1 && LiveAt(idx, j, q)
    {
      if q != p {
        var j :| 0 <= j < n && LiveAt(idx, j, q);
      }
    }
  }

  lemma ListsAll(idx: Index, m: Indexed)
    requires Valid(idx) && ListsFirst(idx, m, |idx.docs|)
    ensures Lists(idx, m)
  {
    hide Valid, LiveAt;
    forall p
      ensures p in m <==> LiveDoc(idx, p).Some?
      ensures p in m ==> m[p] == (LiveDoc(idx, p).value.docId, LiveDoc(idx, p).value.mtime)
    {
      if p in m {
        var j :| 0 <= j < |idx.docs| && LiveAt(idx, j, p);
        LiveAtIs(idx, j, p);
      }
      if LiveDoc(idx, p).Some? {
        var j := LiveIndex(idx, p);
      }
    }
  }

  method ListIndexed(idx: Index) returns (m: Indexed)
    requires Valid(idx)
    ensures Lists(idx, m)
  {
    m := map[];
    var i := 0;
    assert ListsFirst(idx, m, 0);
    hide Valid, ListsFirst, Lists;
    while i < |idx.docs|
      invariant 0 <= i <= |idx.docs| && ListsFirst(idx, m, i)
    {
      ListsOneMore(idx, m, i);
      var doc := idx.docs[i];
      if doc.IsValid() && doc.pathId < |idx.paths| {
        m := m[idx.paths[doc.pathId] := (doc.docId, doc.mtime)];
      }
      i := i + 1;
    }
    ListsAll(idx, m);
  }

  /** No other valid document has the path of document `i`. */
  lemma OnlyLive(idx: Index, i: nat)
    requires Valid(idx) && i < |idx.docs| && idx.docs[i].IsValid() && idx.docs[i].pathId < |idx.paths|
    ensures forall j, p :: 0 <= j < i && LiveAt(idx, j, p) ==> p != idx.paths[idx.docs[i].pathId]
  {
  }

  lemma LiveAtIs(idx: Index, j: nat, p: Path)
    requires Valid(idx) && LiveAt(idx, j, p)
    ensures LiveDoc(idx, p) == Some(idx.docs[j])
  {
    LiveDocIs(idx, j);
  }

  lemma LiveIndex(idx: Index, p: Path) returns (j: nat)
    requires LiveDoc(idx, p).Some?
    ensures j < |idx.docs| && LiveAt(idx, j, p)
  {
    j :| 0 <= j < |idx.docs| && idx.docs[j] == LiveDoc(idx, p).value;
  }

  // ------------------------------------------------------------------- the diff

  datatype IndexDiff = IndexDiff(
    newFiles: seq<Path>,
    modifiedFiles: seq<(Path, DocId)>,
    deletedFiles: seq<Path>,
    rejectedUnchanged: seq<(Path, nat)>,
    indexedCount: nat)

  /** Rejected before and unchanged since. */
  predicate StillRejected(rejected: map<Path, nat>, fs: FileSystem, p: Path) {
    p in rejected && p in fs && rejected[p] == fs[p].mtime
  }

  predicate IsNew(indexed: Indexed, rejected: map<Path, nat>, fs: FileSystem, p: Path) {
    p !in indexed && !StillRejected(rejected, fs, p)
  }

  predicate IsModified(indexed: Indexed, fs: FileSystem, p: Path) {
    p in indexed && p in fs && indexed[p].1 != fs[p].mtime
  }

  /** The lists of a diff after the paths in `seen` were looked at. */
  ghost predicate Sorts(diff: IndexDiff, indexed: Indexed, rejected: map<Path, nat>, fs: FileSystem, seen: set<Path>) {
    && Distinct(diff.newFiles) && Distinct(ModifiedPaths(diff))
    && (forall p :: p in diff.newFiles <==> p in seen && IsNew(indexed, rejected, fs, p))
    && (forall p :: p in ModifiedPaths(diff) <==> p in seen && IsModified(indexed, fs, p))
    && (forall p, m :: (p, m) in diff.rejectedUnchanged <==>
          p in seen && p !in indexed && StillRejected(rejected, fs, p) && m == fs[p].mtime)
  }

  function ModifiedPaths(diff: IndexDiff): (r: seq<Path>)
    ensures |r| == |diff.modifiedFiles| && forall i :: 0 <= i < |r| ==> r[i] == diff.modifiedFiles[i].0
  {
    seq(|diff.modifiedFiles|, i requires 0 <= i < |diff.modifiedFiles| => diff.modifiedFiles[i].0)
  }

  /** The diff sorts every visible file, and what is indexed but not visible is deleted. */
  ghost predicate DiffIs(diff: IndexDiff, indexed: Indexed, rejected: map<Path, nat>, fs: FileSystem,
      visible: Visibility) {
    && Distinct(diff.newFiles) && Distinct(ModifiedPaths(diff))
    && (forall p :: p in diff.newFiles <==> Visible(visible, fs, p) && IsNew(indexed, rejected, fs, p))
    && (forall p :: p in ModifiedPaths(diff) <==> Visible(visible, fs, p) && IsModified(indexed, fs, p))
    && (forall p :: p in diff.deletedFiles <==> p in indexed && !Visible(visible, fs, p))
    && (forall p, m :: (p, m) in diff.rejectedUnchanged <==>
          Visible(visible, fs, p) && p !in indexed && StillRejected(rejected, fs, p) && m == fs[p].mtime)
    && diff.indexedCount == |indexed|
  }

  method SortEntry(diff: IndexDiff, p: Path, currentMtime: nat, indexed: Indexed, rejected: map<Path, nat>,
      ghost fs: FileSystem, ghost seen: set<Path>)
    returns (r: IndexDiff)
    requires Sorts(diff, indexed, rejected, fs, seen) && p !in seen && p in fs && currentMtime == fs[p].mtime
    ensures Sorts(r, indexed, rejected, fs, seen + {p})
    ensures r.deletedFiles == diff.deletedFiles && r.indexedCount == diff.indexedCount
  {
    r := diff;
    if p in indexed {
      var (docId, indexedMtime) := indexed[p];
      if currentMtime != indexedMtime {
        r := diff.(modifiedFiles := diff.modifiedFiles + [(p, docId)]);
        assert ModifiedPaths(r) == ModifiedPaths(diff) + [p];
      }
    } else if p in rejected && rejected[p] == currentMtime {
      r := diff.(rejectedUnchanged := diff.rejectedUnchanged + [(p, currentMtime)]);
    } else {
      r := diff.(newFiles := diff.newFiles + [p]);
    }
  }

  method ComputeIndexDiff(scanned: seq<(Path, nat)>, indexed: Indexed, rejected: map<Path, nat>, ghost fs: FileSystem,
      ghost visible: Visibility)
    returns (diff: IndexDiff)
    requires Scans(scanned, fs, visible)
    ensures DiffIs(diff, indexed, rejected, fs, visible)
  {
    diff := IndexDiff([], [], [], [], |indexed|);
    var seenPaths: set<Path> := {};
    var i := 0;
    assert Sorts(diff, indexed, rejected, fs, seenPaths);
    assert Elements(PathsOf(scanned)[..0]) == {};
    hide Sorts, DiffIs, Scans, Elements, PathsOf;
    while i < |scanned|
      invariant 0 <= i <= |scanned| && seenPaths == Elements(PathsOf(scanned)[..i])
      invariant Sorts(diff, indexed, rejected, fs, seenPaths) && diff.deletedFiles == []
      invariant diff.indexedCount == |indexed|
    {
      var (p, currentMtime) := scanned[i];
      NextPath(scanned, fs, visible, i);
      diff := SortEntry(diff, p, currentMtime, indexed, rejected, fs, seenPaths);
      seenPaths := seenPaths + {p};
      i := i + 1;
    }
    assert PathsOf(scanned)[..i] == PathsOf(scanned);
    SeenIsVisible(scanned, fs, visible, seenPaths);
    var deleted := Unseen(indexed, seenPaths);
    AllSorted(diff, deleted, indexed, rejected, fs, visible, seenPaths);
    diff := diff.(deletedFiles := deleted);
  }

  lemma AllSorted(diff: IndexDiff, deleted: seq<Path>, indexed: Indexed, rejected: map<Path, nat>, fs: FileSystem,
      visible: Visibility, seen: set<Path>)
    requires Sorts(diff, indexed, rejected, fs, seen) && diff.indexedCount == |indexed|
    requires forall p :: p in seen <==> Visible(visible, fs, p)
    requires forall p :: p in deleted <==> p in indexed && p !in seen
    ensures DiffIs(diff.(deletedFiles := deleted), indexed, rejected, fs, visible)
  {
    assert ModifiedPaths(diff.(deletedFiles := deleted)) == ModifiedPaths(diff);
    hide Visible, StillRejected;
  }

  lemma NextPath(scanned: seq<(Path, nat)>, fs: FileSystem, visible: Visibility, i: nat)
    requires Scans(scanned, fs, visible) && i < |scanned|
    ensures var p, before := scanned[i].0, Elements(PathsOf(scanned)[..i]);
            && p !in before && Elements(PathsOf(scanned)[..i + 1]) == before + {p}
            && p in fs && scanned[i].1 == fs[p].mtime
  {
    assert PathsOf(scanned)[..i + 1] == PathsOf(scanned)[..i] + [scanned[i].0];
  }

  lemma SeenIsVisible(scanned: seq<(Path, nat)>, fs: FileSystem, visible: Visibility, seen: set<Path>)
    requires Scans(scanned, fs, visible) && seen == Elements(PathsOf(scanned))
    ensures forall p :: p in seen <==> Visible(visible, fs, p)
  {
  }

  method Unseen(indexed: Indexed, seen: set<Path>) returns (r: seq<Path>)
    ensures forall p :: p in r <==> p in indexed && p !in seen
  {
    r := [];
    var todo := indexed.Keys;
    while todo != {}
      invariant todo <= indexed.Keys && forall p :: p in r <==> p in indexed.Keys - todo && p !in seen
      decreases |todo|
    {
      var p :| p in todo;
      if p !in seen {
        r := r + [p];
      }
      todo := todo - {p};
    }
  }

  // ----------------------------------------------------------------- the update

  /** Rejections among paths just looked at, with their current times. */
  function Rejections(extract: Extractor, fs: FileSystem, paths: seq<Path>): seq<(Path, nat)> {
    if paths == [] then []
    else
      var p := paths[|paths| - 1];
      Rejections(extract, fs, paths[..|paths| - 1]) +
      if ExtractAt(extract, fs, p).None? then [(p, if p in fs then fs[p].mtime else 0)] else []
  }

  /** Extracts each path: what can be indexed goes to the writer, the rest is remembered as rejected. */
  method AddOutcomes(writer: DeltaSegmentWriter, paths: seq<Path>, fs: FileSystem, extract: Extractor,
      before: seq<(Path, nat)>)
    returns (rejected: seq<(Path, nat)>)
    requires writer.Valid() && writer.files == [] && Sound(extract)
    modifies writer`pathToId, writer`newPaths, writer`nextPathId, writer`nextDocId, writer`newDocuments,
        writer`segment, writer`files
    ensures writer.Valid() && writer.files == ExtractAll(extract, fs, paths)
    ensures rejected == before + Rejections(extract, fs, paths)
  {
    hide DeltaSegmentWriter.Valid, WellFormedFile;
    rejected := before;
    var j := 0;
    while j < |paths|
      invariant 0 <= j <= |paths| && writer.Valid() && writer.files == ExtractAll(extract, fs, paths[..j])
      invariant rejected == before + Rejections(extract, fs, paths[..j])
    {
      assert paths[..j + 1][..j] == paths[..j];
      var processed := ExtractAt(extract, fs, paths[j]);
      if processed.Some? {
        writer.AddFile(processed.value);
      } else {
        rejected := rejected + [(paths[j], if paths[j] in fs then fs[paths[j]].mtime else 0)];
      }
      j := j + 1;
    }
    assert paths[..j] == paths;
  }

  /** What the update reads, and what it buries. */
  function ToIndex(diff: IndexDiff): seq<Path> {
    diff.newFiles + ModifiedPaths(diff)
  }

  function ToBury(diff: IndexDiff): seq<Path> {
    diff.deletedFiles + ModifiedPaths(diff)
  }

  /** The index after the update, with the new list of rejected files. */
  function Incremented(idx: Index, diff: IndexDiff, fs: FileSystem, extract: Extractor): Index
    requires AllWellFormed(ExtractAll(extract, fs, ToIndex(diff)))
  {
    Updated(idx, ToBury(diff), ExtractAll(extract, fs, ToIndex(diff)))
      .(rejected := diff.rejectedUnchanged + Rejections(extract, fs, ToIndex(diff)))
  }

  /** Whether the diff comes to a delta at all. */
  predicate HasChanges(idx: Index, diff: IndexDiff, fs: FileSystem, extract: Extractor) {
    DeadForAll(idx, ToBury(diff)) != [] || ExtractAll(extract, fs, ToIndex(diff)) != []
  }

  const MERGE_SEGMENT_THRESHOLD := 15

  /** What the update leaves: the index with the delta, compacted if there is a delta and it has become fragmented. */
  ghost predicate Leaves(idx: Index, diff: IndexDiff, fs: FileSystem, extract: Extractor, deltaBaseline: nat, u: Index)
    requires AllWellFormed(ExtractAll(extract, fs, ToIndex(diff)))
  {
    var written := Incremented(idx, diff, fs, extract);
    if HasChanges(idx, diff, fs, extract) then Compact.Settles(written, deltaBaseline, MERGE_SEGMENT_THRESHOLD, u)
    else u == written
  }

  method PerformIncrementalUpdate(idx: Index, diff: IndexDiff, fs: FileSystem, extract: Extractor, deltaBaseline: nat,
      ghost indexed: Indexed, ghost visible: Visibility)
    returns (updated: Index)
    requires Valid(idx) && Agrees(extract, visible) && Lists(idx, indexed)
    requires DiffIs(diff, indexed, RejectedMap(idx), fs, visible)
    ensures AllWellFormed(ExtractAll(extract, fs, ToIndex(diff)))
    ensures Leaves(idx, diff, fs, extract, deltaBaseline, updated)
  {
    assert Sound(extract);
    hide Valid, DeltaSegmentWriter.Valid, DeadForAll, ExtractAll, Sound, Rejections, Agrees, Lists, DiffIs, Updated,
        ToBury, ToIndex, Compact.Settles;
    ValidParts(idx);
    ExtractedFiles(extract, fs, ToIndex(diff));
    IncrementedIsValid(idx, diff, indexed, fs, extract, visible);
    var writer := new DeltaSegmentWriter(idx, NextSegmentId(idx));
    MarkTombstones(writer, ToBury(diff));
    var rejected := AddOutcomes(writer, ToIndex(diff), fs, extract, diff.rejectedUnchanged);
    var changed := HasDelta(writer);
    updated := writer.Finalize(idx);
    IsUpdated(idx, ToBury(diff), ExtractAll(extract, fs, ToIndex(diff)));
    updated := updated.(rejected := rejected);
    if changed {
      updated := Compact.CompactIfFragmented(updated, deltaBaseline, MERGE_SEGMENT_THRESHOLD);
    }
  }

  /** Whether the writer has anything to write, as it tells itself. */
  method HasDelta(writer: DeltaSegmentWriter) returns (changed: bool)
    requires writer.Valid()
    ensures changed <==> writer.tombstoneDocIds != [] || writer.files != []
  {
    hide PathMap, WellFormedFile, BuildSegment, PathsAfter, MaxId;
    NewDocsLength(writer.source.paths, MaxId(writer.source.docs) + 1, writer.segmentId, writer.files, |writer.files|);
    changed := writer.HasChanges();
  }

  lemma IsUpdated(idx: Index, gone: seq<Path>, files: seq<ProcessedFile>)
    requires AllWellFormed(files)
    ensures Updated(idx, gone, files) == ApplyDelta(idx, NextSegmentId(idx), DeadForAll(idx, gone), files)
  {
  }

  const INCREMENTAL_THRESHOLD_PERCENT := 30

  datatype UpdateOutcome = UpToDate | FullBuild | Incremental(index: Index)

  function TotalChanges(diff: IndexDiff): nat {
    |diff.newFiles| + |diff.modifiedFiles| + |diff.deletedFiles|
  }

  function ChangePercent(diff: IndexDiff): nat {
    if diff.indexedCount == 0 then 100 else TotalChanges(diff) * 100 / diff.indexedCount
  }

  function RejectedMap(idx: Index): map<Path, nat> {
    RejectedFirst(idx.rejected, |idx.rejected|)
  }

  /** The first `n` entries collected into a map, later ones winning. */
  function RejectedFirst(rejected: seq<(Path, nat)>, n: nat): (m: map<Path, nat>)
    requires n <= |rejected|
    ensures forall p :: p in m ==> (p, m[p]) in rejected
    ensures forall i :: 0 <= i < n ==> rejected[i].0 in m
  {
    if n == 0 then map[] else RejectedFirst(rejected, n - 1)[rejected[n - 1].0 := rejected[n - 1].1]
  }

  lemma BeyondThreshold(diff: IndexDiff, indexed: Indexed, rejected: map<Path, nat>, fs: FileSystem,
      visible: Visibility)
    requires DiffIs(diff, indexed, rejected, fs, visible)
    ensures ChangePercent(diff) > INCREMENTAL_THRESHOLD_PERCENT <==>
            |indexed| == 0 || TotalChanges(diff) * 100 >= 31 * |indexed|
  {
    assert diff.indexedCount == |indexed|;
    if |indexed| > 0 {
      Daemon.PercentAbove(TotalChanges(diff) * 100, |indexed|, INCREMENTAL_THRESHOLD_PERCENT);
    }
    hide DiffIs;
  }

  /** `update_index` on an existing index. */
  method UpdateIndex(idx: Index, scanned: seq<(Path, nat)>, fs: FileSystem, extract: Extractor, deltaBaseline: nat,
      ghost visible: Visibility)
    returns (outcome: UpdateOutcome, diff: IndexDiff, indexed: Indexed)
    requires Valid(idx) && Agrees(extract, visible) && Scans(scanned, fs, visible)
    ensures Lists(idx, indexed) && DiffIs(diff, indexed, RejectedMap(idx), fs, visible)
    ensures AllWellFormed(ExtractAll(extract, fs, ToIndex(diff)))
    ensures outcome.UpToDate? <==> diff.newFiles == [] && diff.modifiedFiles == [] && diff.deletedFiles == []
    ensures outcome.FullBuild? <==>
            && |diff.newFiles| + |diff.modifiedFiles| + |diff.deletedFiles| > 0
            && (|indexed| == 0
                || (|diff.newFiles| + |diff.modifiedFiles| + |diff.deletedFiles|) * 100 >= 31 * |indexed|)
    ensures outcome.Incremental? ==> Leaves(idx, diff, fs, extract, deltaBaseline, outcome.index)
  {
    assert Sound(extract);
    hide Valid, Sound, Agrees, DiffIs, Lists, Scans, Leaves;
    indexed := ListIndexed(idx);
    diff := ComputeIndexDiff(scanned, indexed, RejectedMap(idx), fs, visible);
    ExtractedFiles(extract, fs, ToIndex(diff));
    BeyondThreshold(diff, indexed, RejectedMap(idx), fs, visible);
    if TotalChanges(diff) == 0 {
      outcome := UpToDate;
    } else if ChangePercent(diff) > INCREMENTAL_THRESHOLD_PERCENT {
      outcome := FullBuild;
    } else {
      var updated := PerformIncrementalUpdate(idx, diff, fs, extract, deltaBaseline, indexed, visible);
      outcome := Incremental(updated);
    }
  }

  // -------------------------------------------------------- the index on the disk

  /** A file whose time is the recorded one is as recorded: the scan may go by times. */
  ghost predicate TimesTell(idx: Index, fs: FileSystem, extract: Extractor, visible: Visibility, gone: set<Trigram>)
    requires Sound(extract)
  {
    && (forall p :: Visible(visible, fs, p) && Lookup(idx, p).Some? && Lookup(idx, p).value.mtime == fs[p].mtime
          ==> Right(idx, fs, p, extract, gone))
    && (forall p :: Visible(visible, fs, p) && StillRejected(RejectedMap(idx), fs, p) ==>
        Expected(fs, p, extract) == None)
  }

  /** The index knows every file as a fresh extraction would, but for some of the trigrams in `gone`. */
  ghost predicate Current(idx: Index, fs: FileSystem, extract: Extractor, gone: set<Trigram>)
    requires Sound(extract)
  {
    forall p :: Right(idx, fs, p, extract, gone)
  }

  lemma LookupOfListed(idx: Index, m: Indexed, p: Path)
    requires Lists(idx, m)
    ensures p in m <==> Lookup(idx, p).Some?
    ensures p in m ==> m[p].1 == Lookup(idx, p).value.mtime
  {
    hide DataIn;
  }

  /** What the diff leaves alone is already known as it is. */
  lemma LeftAlone(idx: Index, diff: IndexDiff, indexed: Indexed, fs: FileSystem, extract: Extractor,
      visible: Visibility, gone: set<Trigram>, p: Path)
    requires Agrees(extract, visible) && Lists(idx, indexed) && DiffIs(diff, indexed, RejectedMap(idx), fs, visible)
    requires TimesTell(idx, fs, extract, visible, gone)
    requires p !in ToIndex(diff) && p !in ToBury(diff)
    ensures Right(idx, fs, p, extract, gone)
  {
    LookupOfListed(idx, indexed, p);
    UnknownHasNone(idx, p);
    UnreadHasNone(fs, extract, p);
    hide Lookup, RejectedMap, Lists, KnownOf, LiveTrigrams, Grams;
  }

  lemma UnknownHasNone(idx: Index, p: Path)
    ensures Lookup(idx, p).None? ==> LiveTrigrams(idx, p) == {}
  {
  }

  lemma UnreadHasNone(fs: FileSystem, extract: Extractor, p: Path)
    requires Sound(extract)
    ensures Expected(fs, p, extract).None? ==> Grams(fs, p, extract) == {}
  {
  }

  lemma DiffSafe(idx: Index, diff: IndexDiff, indexed: Indexed, fs: FileSystem, extract: Extractor, visible: Visibility)
    requires Agrees(extract, visible) && Lists(idx, indexed) && DiffIs(diff, indexed, RejectedMap(idx), fs, visible)
    ensures var files := ExtractAll(extract, fs, ToIndex(diff));
            AllWellFormed(files) && DistinctPaths(files) && BuriesWhatItAdds(idx, ToBury(diff), files)
  {
    var paths := ToIndex(diff);
    forall i, j | 0 <= i < j < |paths|
      ensures paths[i] != paths[j]
    {
      if i < |diff.newFiles| <= j {
        assert diff.newFiles[i] in diff.newFiles && ModifiedPaths(diff)[j - |diff.newFiles|] in ModifiedPaths(diff);
      }
    }
    hide RejectedMap, LiveDoc;
    ExtractedFiles(extract, fs, paths);
    ExtractedDistinct(extract, fs, paths);
    var files := ExtractAll(extract, fs, paths);
    hide ExtractAll;
    forall i | 0 <= i < |files| && LiveDoc(idx, files[i].relPath).Some?
      ensures files[i].relPath in ToBury(diff)
    {
      assert files[i] in files;
    }
  }

  lemma RejectedIsAside(idx: Index, r: seq<(Path, nat)>, p: Path)
    ensures Lookup(idx.(rejected := r), p) == Lookup(idx, p)
    ensures LiveTrigrams(idx.(rejected := r), p) == LiveTrigrams(idx, p)
  {
  }

  lemma RejectedKeepsValid(idx: Index, r: seq<(Path, nat)>)
    requires Valid(idx)
    ensures Valid(idx.(rejected := r))
  {
    var u := idx.(rejected := r);
    assert Active(u) == Active(idx);
    forall s | s in u.segments
      ensures SegmentSound(u, s)
    {
      assert SegmentSound(idx, s);
    }
  }

  /** One path after the update. */
  lemma UpdatedPath(idx: Index, diff: IndexDiff, indexed: Indexed, fs: FileSystem, extract: Extractor,
      visible: Visibility, gone: set<Trigram>, p: Path)
    requires Valid(idx) && Agrees(extract, visible) && Lists(idx, indexed)
    requires DiffIs(diff, indexed, RejectedMap(idx), fs, visible)
    requires TimesTell(idx, fs, extract, visible, gone)
    requires AllWellFormed(ExtractAll(extract, fs, ToIndex(diff)))
    ensures Right(Incremented(idx, diff, fs, extract), fs, p, extract, gone)
  {
    hide Updated, AllWellFormed, Lookup, DistinctPaths, BuriesWhatItAdds, Valid, ExtractAll, FileFor, KnownOf, LiveDoc,
        RejectedMap,
         Lists, TimesTell, Rejections, ToIndex, LiveTrigrams, Grams;
    var files := ExtractAll(extract, fs, ToIndex(diff));
    DiffSafe(idx, diff, indexed, fs, extract, visible);
    DeltaMeaning(idx, ToBury(diff), files, p);
    DeltaGrams(idx, ToBury(diff), files, p);
    AddedFile(ToIndex(diff), fs, extract, p);
    AddedGrams(ToIndex(diff), fs, extract, p);
    RejectedIsAside(Updated(idx, ToBury(diff), files), diff.rejectedUnchanged + Rejections(extract, fs, ToIndex(diff)),
        p);
    UnreadHasNone(fs, extract, p);
    UnknownHasNone(idx, p);
    if p in ToIndex(diff) {
      if p !in ToBury(diff) {
        NewIsUnknown(idx, diff, indexed, fs, visible, p);
      }
    } else {
      if p in ToBury(diff) {
        BuriedIsGone(diff, indexed, RejectedMap(idx), fs, extract, visible, p);
      } else {
        LeftAlone(idx, diff, indexed, fs, extract, visible, gone, p);
      }
    }
  }

  lemma NewIsUnknown(idx: Index, diff: IndexDiff, indexed: Indexed, fs: FileSystem, visible: Visibility, p: Path)
    requires Lists(idx, indexed) && DiffIs(diff, indexed, RejectedMap(idx), fs, visible)
    requires p in ToIndex(diff) && p !in ToBury(diff)
    ensures Lookup(idx, p) == None
  {
    LookupOfListed(idx, indexed, p);
    hide Lookup, RejectedMap, Lists;
  }

  lemma BuriedIsGone(diff: IndexDiff, indexed: Indexed, rejected: map<Path, nat>, fs: FileSystem, extract: Extractor,
      visible: Visibility, p: Path)
    requires Agrees(extract, visible) && DiffIs(diff, indexed, rejected, fs, visible)
    requires p in ToBury(diff) && p !in ToIndex(diff)
    ensures Expected(fs, p, extract) == None
  {
  }

  lemma IncrementedIsValid(idx: Index, diff: IndexDiff, indexed: Indexed, fs: FileSystem, extract: Extractor,
      visible: Visibility)
    requires Valid(idx) && Agrees(extract, visible) && Lists(idx, indexed)
    requires DiffIs(diff, indexed, RejectedMap(idx), fs, visible)
    requires AllWellFormed(ExtractAll(extract, fs, ToIndex(diff)))
    ensures Valid(Incremented(idx, diff, fs, extract))
  {
    hide DistinctPaths, BuriesWhatItAdds, Valid, ExtractAll,
      LiveDoc, RejectedMap, Lists, DiffIs, Updated, AllWellFormed,
        Rejections;
    DiffSafe(idx, diff, indexed, fs, extract, visible);
    DeltaKeepsValid(idx, ToBury(diff), ExtractAll(extract, fs, ToIndex(diff)));
    RejectedKeepsValid(Updated(idx, ToBury(diff), ExtractAll(extract, fs, ToIndex(diff))),
                       diff.rejectedUnchanged + Rejections(extract, fs, ToIndex(diff)));
  }

  /** A compaction takes its stop-grams out of what is known, and nothing else. */
  lemma CompactedIsCurrent(idx: Index, c: Index, fs: FileSystem, extract: Extractor, gone: set<Trigram>)
    requires Valid(idx) && Sound(extract) && Current(idx, fs, extract, gone) && Compact.IsCompaction(idx, c)
    ensures Valid(c) && Current(c, fs, extract, gone + c.stopGrams)
  {
    CompactSafety.CompactionKeepsValid(idx, c);
    hide Valid, Compact.IsCompaction, Lookup, LiveDoc, TrigramsOf, Expected, Grams, Sound;
    forall p
      ensures Right(c, fs, p, extract, gone + c.stopGrams)
    {
      assert Right(idx, fs, p, extract, gone);
      CompactSafety.CompactionPreserves(idx, c, p);
    }
  }

  /** An update that ends as written, or in a compaction. */
  ghost predicate UpdatesTo(idx: Index, diff: IndexDiff, fs: FileSystem, extract: Extractor, compacts: bool, u: Index)
    requires AllWellFormed(ExtractAll(extract, fs, ToIndex(diff)))
  {
    var written := Incremented(idx, diff, fs, extract);
    if compacts then Compact.IsCompaction(written, u) else u == written
  }

  /** What has been taken out of the postings after such an update. */
  function GoneAfter(gone: set<Trigram>, compacts: bool, u: Index): set<Trigram> {
    if compacts then gone + u.stopGrams else gone
  }

  /** What an update leaves is what it wrote, or a compaction of it. */
  lemma LeavesOne(idx: Index, diff: IndexDiff, fs: FileSystem, extract: Extractor, deltaBaseline: nat, u: Index)
    requires AllWellFormed(ExtractAll(extract, fs, ToIndex(diff))) && Leaves(idx, diff, fs, extract, deltaBaseline, u)
    ensures UpdatesTo(idx, diff, fs, extract, false, u) || UpdatesTo(idx, diff, fs, extract, true, u)
  {
    hide Incremented, HasChanges, Compact.IsCompaction;
  }

  /**
    If times tell, an incremental update leaves the index valid and knowing
    exactly what a fresh extraction of every file would, but for the stop-grams
    of the compaction it may end in.
  */
  lemma UpdateMeetsDisk(idx: Index, diff: IndexDiff, indexed: Indexed, fs: FileSystem, extract: Extractor,
      visible: Visibility, gone: set<Trigram>, compacts: bool, u: Index)
    requires Valid(idx) && Agrees(extract, visible) && Lists(idx, indexed)
    requires DiffIs(diff, indexed, RejectedMap(idx), fs, visible)
    requires TimesTell(idx, fs, extract, visible, gone)
    requires AllWellFormed(ExtractAll(extract, fs, ToIndex(diff))) && UpdatesTo(idx, diff, fs, extract, compacts, u)
    ensures Valid(u) && Current(u, fs, extract, GoneAfter(gone, compacts, u))
  {
    hide Right, Valid, ExtractAll, RejectedMap, Lists, DiffIs, TimesTell, Incremented, AllWellFormed,
        Compact.IsCompaction;
    var written := Incremented(idx, diff, fs, extract);
    forall p
      ensures Right(written, fs, p, extract, gone)
    {
      UpdatedPath(idx, diff, indexed, fs, extract, visible, gone, p);
    }
    IncrementedIsValid(idx, diff, indexed, fs, extract, visible);
    if compacts {
      CompactedIsCurrent(written, u, fs, extract, gone);
    }
  }

  /** A scan that finds no change is right: the index is current as it stands. */
  lemma NoChangeIsCurrent(idx: Index, diff: IndexDiff, indexed: Indexed, fs: FileSystem, extract: Extractor,
      visible: Visibility, gone: set<Trigram>)
    requires Agrees(extract, visible) && Lists(idx, indexed) && DiffIs(diff, indexed, RejectedMap(idx), fs, visible)
    requires TimesTell(idx, fs, extract, visible, gone) && TotalChanges(diff) == 0
    ensures Current(idx, fs, extract, gone)
  {
    hide Right, Lists, DiffIs, TimesTell, RejectedMap;
    assert diff.newFiles == [] && diff.modifiedFiles == [] && diff.deletedFiles == [];
    forall p
      ensures Right(idx, fs, p, extract, gone)
    {
      LeftAlone(idx, diff, indexed, fs, extract, visible, gone, p);
    }
  }

  // ----------------------------------------------------------- scanning once more

  lemma {:induction false} RejectionsAre(extract: Extractor, fs: FileSystem, paths: seq<Path>, p: Path, m: nat)
    requires p in fs
    ensures (p, m) in Rejections(extract, fs, paths) <==>
            p in paths && ExtractAt(extract, fs, p).None? && m == fs[p].mtime
    decreases |paths|
  {
    if paths != [] {
      var init := paths[..|paths| - 1];
      assert paths == init + [paths[|paths| - 1]];
      RejectionsAre(extract, fs, init, p, m);
    }
  }

  lemma {:induction false} InRejectedMap(rejected: seq<(Path, nat)>, n: nat, p: Path, m: nat)
    requires n <= |rejected| && forall i :: 0 <= i < n && rejected[i].0 == p ==> rejected[i].1 == m
    ensures p in RejectedFirst(rejected, n) ==> RejectedFirst(rejected, n)[p] == m
  {
    if n > 0 {
      InRejectedMap(rejected, n - 1, p, m);
    }
  }

  /** Visible files that cannot be indexed are on the rejected list, with their times. */
  ghost predicate RemembersRejects(idx: Index, fs: FileSystem, extract: Extractor, visible: Visibility) {
    forall p :: Visible(visible, fs, p) && ExtractAt(extract, fs, p).None? ==> StillRejected(RejectedMap(idx), fs, p)
  }

  lemma UpdateRemembers(idx: Index, diff: IndexDiff, indexed: Indexed, fs: FileSystem, extract: Extractor,
      visible: Visibility, gone: set<Trigram>, compacts: bool, u: Index)
    requires Agrees(extract, visible) && Lists(idx, indexed) && DiffIs(diff, indexed, RejectedMap(idx), fs, visible)
    requires TimesTell(idx, fs, extract, visible, gone)
    requires AllWellFormed(ExtractAll(extract, fs, ToIndex(diff))) && UpdatesTo(idx, diff, fs, extract, compacts, u)
    ensures RemembersRejects(u, fs, extract, visible)
  {
    UpdatedRejects(idx, diff, fs, extract, compacts, u);
    hide UpdatesTo, ExtractAll, Lookup, Rejections, AllWellFormed, LiveDoc;
    forall p | Visible(visible, fs, p) && ExtractAt(extract, fs, p).None?
      ensures StillRejected(RejectedMap(u), fs, p)
    {
      RejectedPath(idx, diff, indexed, fs, extract, visible, gone, p);
      StaysRejected(u, diff.rejectedUnchanged, Rejections(extract, fs, ToIndex(diff)), fs, p);
    }
  }

  /** The list of rejected files survives a compaction. */
  lemma UpdatedRejects(idx: Index, diff: IndexDiff, fs: FileSystem, extract: Extractor, compacts: bool, u: Index)
    requires AllWellFormed(ExtractAll(extract, fs, ToIndex(diff))) && UpdatesTo(idx, diff, fs, extract, compacts, u)
    ensures u.rejected == diff.rejectedUnchanged + Rejections(extract, fs, ToIndex(diff))
  {
    hide Updated, Rejections, ExtractAll, AllWellFormed, Compact.MergedUpTo, Compact.RemapFirst, Compact.StopGramChoice,
        Compact.Written, Compact.Frequencies;
  }

  /** Every entry for the path on the new list has its current time, and there is one. */
  lemma RejectedPath(idx: Index, diff: IndexDiff, indexed: Indexed, fs: FileSystem, extract: Extractor,
      visible: Visibility, gone: set<Trigram>, p: Path)
    requires Agrees(extract, visible) && Lists(idx, indexed) && DiffIs(diff, indexed, RejectedMap(idx), fs, visible)
    requires TimesTell(idx, fs, extract, visible, gone)
    requires Visible(visible, fs, p) && ExtractAt(extract, fs, p).None?
    ensures var all := diff.rejectedUnchanged + Rejections(extract, fs, ToIndex(diff));
            (p, fs[p].mtime) in all && forall m :: (p, m) in all ==> m == fs[p].mtime
  {
    LookupOfListed(idx, indexed, p);
    hide Lookup, RejectedMap, Lists, Rejections, LiveTrigrams, Grams;
    forall m: nat
      ensures (p, m) in Rejections(extract, fs, ToIndex(diff)) <==> p in ToIndex(diff) && m == fs[p].mtime
    {
      RejectionsAre(extract, fs, ToIndex(diff), p, m);
    }
  }

  lemma StaysRejected(u: Index, a: seq<(Path, nat)>, b: seq<(Path, nat)>, fs: FileSystem, p: Path)
    requires u.rejected == a + b && p in fs
    requires (p, fs[p].mtime) in a + b && forall m :: (p, m) in a + b ==> m == fs[p].mtime
    ensures StillRejected(RejectedMap(u), fs, p)
  {
    var all := u.rejected;
    var i :| 0 <= i < |all| && all[i] == (p, fs[p].mtime);
    forall j | 0 <= j < |all| && all[j].0 == p
      ensures all[j].1 == fs[p].mtime
    {
      assert all[j] in all && all[j] == (p, all[j].1);
    }
    InRejectedMap(all, |all|, p, fs[p].mtime);
    assert all[i].0 in RejectedFirst(all, |all|);
  }

  /** A current index that remembers its rejects makes the next scan of the same files report nothing. */
  lemma SecondScanQuiet(idx: Index, diff: IndexDiff, indexed: Indexed, fs: FileSystem, extract: Extractor,
      visible: Visibility, gone: set<Trigram>)
    requires Agrees(extract, visible) && Current(idx, fs, extract, gone) && RemembersRejects(idx, fs, extract, visible)
    requires Lists(idx, indexed) && DiffIs(diff, indexed, RejectedMap(idx), fs, visible)
    ensures diff.newFiles == [] && ModifiedPaths(diff) == [] && diff.deletedFiles == [] && TotalChanges(diff) == 0
  {
    hide RejectedMap, Lists, DiffIs;
    if diff.newFiles != [] {
      QuietPath(idx, diff, indexed, fs, extract, visible, gone, diff.newFiles[0]);
      assert false;
    }
    if ModifiedPaths(diff) != [] {
      QuietPath(idx, diff, indexed, fs, extract, visible, gone, ModifiedPaths(diff)[0]);
      assert false;
    }
    if diff.deletedFiles != [] {
      QuietPath(idx, diff, indexed, fs, extract, visible, gone, diff.deletedFiles[0]);
      assert false;
    }
  }

  lemma QuietPath(idx: Index, diff: IndexDiff, indexed: Indexed, fs: FileSystem, extract: Extractor,
      visible: Visibility, gone: set<Trigram>, p: Path)
    requires Agrees(extract, visible) && Current(idx, fs, extract, gone) && RemembersRejects(idx, fs, extract, visible)
    requires Lists(idx, indexed) && DiffIs(diff, indexed, RejectedMap(idx), fs, visible)
    ensures p !in diff.newFiles && p !in ModifiedPaths(diff) && p !in diff.deletedFiles
  {
    LookupOfListed(idx, indexed, p);
    assert Right(idx, fs, p, extract, gone);
    hide Lookup, RejectedMap, Lists, LiveTrigrams, Grams;
  }

  /** A file is listed as modified exactly when its time is not the recorded one. */
  lemma ModifiedIff(idx: Index, diff: IndexDiff, indexed: Indexed, fs: FileSystem, visible: Visibility, p: Path)
    requires Lists(idx, indexed) && DiffIs(diff, indexed, RejectedMap(idx), fs, visible)
    ensures p in ModifiedPaths(diff) <==>
            Visible(visible, fs, p) && Lookup(idx, p).Some? && Lookup(idx, p).value.mtime != fs[p].mtime
  {
    LookupOfListed(idx, indexed, p);
    hide Lookup, Lists;
  }
}
