/**
  DeltaSegmentWriter (src/index/writer.rs:841-1092): tombstones plus a new
  segment, applied to an index that already exists.
*/
module DeltaWriter {
  import opened Prelude
  import opened Index
  import opened SegmentBuilder

  // ------------------------------------------------- what a delta does, as values

  function Tombstoned(doc: Document): Document {
    doc.(tombstone := true)
  }

  /** The documents with the listed ids buried. */
  function Bury(docs: seq<Document>, dead: seq<DocId>): (r: seq<Document>)
    ensures |r| == |docs|
    ensures forall i :: 0 <= i < |docs| ==> r[i] == if docs[i].docId in dead then Tombstoned(docs[i]) else docs[i]
  {
    seq(|docs|, i requires 0 <= i < |docs| => if docs[i].docId in dead then Tombstoned(docs[i]) else docs[i])
  }

  /** The document `mark_tombstone` pushes for a path, if any. */
  function DeadFor(idx: Index, p: Path): seq<DocId> {
    match LiveDoc(idx, p)
    case None => []
    case Some(doc) => [doc.docId]
  }

  function DeadForAll(idx: Index, ps: seq<Path>): seq<DocId> {
    if ps == [] then [] else DeadForAll(idx, ps[..|ps| - 1]) + DeadFor(idx, ps[|ps| - 1])
  }

  /** The path store after the first `n` files have asked for their path ids. */
  function PathsAfter(paths: seq<Path>, files: seq<ProcessedFile>, n: nat): seq<Path>
    requires n <= |files|
  {
    if n == 0 then paths
    else
      var ps := PathsAfter(paths, files, n - 1);
      if files[n - 1].relPath in ps then ps else ps + [files[n - 1].relPath]
  }

  function NewDocument(docId: DocId, pathId: PathId, segmentId: SegmentId, f: ProcessedFile): Document {
    Document(docId, pathId, f.size, f.mtime, f.language, f.minified, false, false, segmentId)
  }

  function NewDocs(paths: seq<Path>, first: DocId, segmentId: SegmentId, files: seq<ProcessedFile>,
      n: nat): seq<Document>
    requires n <= |files|
  {
    if n == 0 then []
    else
      NewDocs(paths, first, segmentId, files, n - 1) +
      [NewDocument(first + n - 1, PathIndexOr0(PathsAfter(paths, files, n), files[n - 1].relPath),
                   segmentId, files[n - 1])]
  }

  function PathIndexOr0(paths: seq<Path>, p: Path): PathId {
    match PathIndex(paths, p)
    case None => 0
    case Some(id) => id
  }

  /** The index after burying `dead` and adding `files` as segment `s`. */
  function ApplyDelta(idx: Index, s: SegmentId, dead: seq<DocId>, files: seq<ProcessedFile>): Index
    requires AllWellFormed(files)
  {
    if dead == [] && files == [] then idx
    else
      idx.(
        docs := Bury(idx.docs, dead) + NewDocs(idx.paths, MaxId(idx.docs) + 1, s, files, |files|),
        paths := PathsAfter(idx.paths, files, |files|),
        segments := if files == [] then idx.segments else idx.segments[s := BuildSegment(MaxId(idx.docs) + 1, files)],
        deltas := idx.deltas + [s])
  }

  /** `meta.delta_segments.iter().max().unwrap_or(base or 0) + 1`. */
  function NextSegmentId(idx: Index): SegmentId {
    (if idx.deltas == [] then (if idx.base.Some? then idx.base.value else 0) else MaxSegment(idx.deltas)) + 1
  }

  function MaxSegment(s: seq<SegmentId>): (m: SegmentId)
    requires s != []
    ensures m in s && forall x :: x in s ==> x <= m
  {
    if |s| == 1 then s[0]
    else
      var m := MaxSegment(s[..|s| - 1]);
      assert forall x :: x in s ==> x in s[..|s| - 1] || x == s[|s| - 1];
      if s[|s| - 1] > m then s[|s| - 1] else m
  }

  /** A lookup table for a path store. */
  ghost predicate PathMap(ids: map<Path, PathId>, ps: seq<Path>) {
    Distinct(ps) && ids.Keys == Elements(ps) && forall i :: 0 <= i < |ps| ==> ids[ps[i]] == i
  }

  // --------------------------------------------------------------- the class

  class DeltaSegmentWriter {
    const segmentId: SegmentId
    const existingDocuments: seq<Document>
    const existingPaths: seq<Path>
    var pathToId: map<Path, PathId>
    var newDocuments: seq<Document>
    var newPaths: seq<Path>
    var nextDocId: DocId
    var nextPathId: PathId
    var segment: Segment  // trigram, token and position postings and line maps
    var tombstoneDocIds: seq<DocId>
    ghost const source: Index
    ghost var files: seq<ProcessedFile>

    /** The writer has the index it was opened on and the files added so far. */
    ghost predicate Valid()
      reads this`pathToId, this`newDocuments, this`newPaths, this`nextDocId, this`nextPathId, this`segment, this`files
    {
      && existingDocuments == source.docs
      && existingPaths == source.paths
      && AllWellFormed(files)
      && existingPaths + newPaths == PathsAfter(source.paths, files, |files|)
      && PathMap(pathToId, existingPaths + newPaths)
      && nextPathId == |existingPaths + newPaths|
      && nextDocId == MaxId(source.docs) + 1 + |files|
      && newDocuments == NewDocs(source.paths, MaxId(source.docs) + 1, segmentId, files, |files|)
      && segment == BuildSegment(MaxId(source.docs) + 1, files)
    }

    constructor (idx: Index, s: SegmentId)
      requires Distinct(idx.paths)
      ensures Valid() && source == idx && segmentId == s && files == [] && tombstoneDocIds == []
    {
      segmentId := s;
      existingDocuments := idx.docs;
      existingPaths := idx.paths;
      source := idx;
      var ids: map<Path, PathId> := map[];
      var i := 0;
      while i < |idx.paths|
        invariant 0 <= i <= |idx.paths|
        invariant ids.Keys == Elements(idx.paths[..i])
        invariant forall k :: 0 <= k < i ==> ids[idx.paths[k]] == k
      {
        assert idx.paths[..i + 1] == idx.paths[..i] + [idx.paths[i]];
        ids := ids[idx.paths[i] := i];
        i := i + 1;
      }
      assert idx.paths[..i] == idx.paths;
      pathToId := ids;
      var top := 0;
      var j := 0;
      while j < |idx.docs|
        invariant 0 <= j <= |idx.docs| && top == MaxId(idx.docs[..j])
      {
        assert idx.docs[..j + 1][..j] == idx.docs[..j];
        if idx.docs[j].docId > top {
          top := idx.docs[j].docId;
        }
        j := j + 1;
      }
      assert idx.docs[..j] == idx.docs;
      nextDocId := top + 1;
      nextPathId := |idx.paths|;
      newDocuments := [];
      newPaths := [];
      segment := EMPTY_SEGMENT;
      tombstoneDocIds := [];
      files := [];
      new;
      assert existingPaths + newPaths == idx.paths;
    }

    method MarkTombstone(relPath: Path)
      requires Valid() && files == []
      modifies this`tombstoneDocIds
      ensures tombstoneDocIds == old(tombstoneDocIds) + DeadFor(source, relPath)
    {
      assert existingPaths + newPaths == source.paths;
      if relPath in pathToId {
        var pathId := pathToId[relPath];
        PathIndexIs(source.paths, pathId);
        var n := |existingDocuments|;
        assert existingDocuments[..n] == existingDocuments;
        while n > 0
          invariant 0 <= n <= |existingDocuments|
          invariant FindLast(existingDocuments, pathId) == FindLast(existingDocuments[..n], pathId)
          invariant tombstoneDocIds == old(tombstoneDocIds)
        {
          var doc := existingDocuments[n - 1];
          assert existingDocuments[..n][..n - 1] == existingDocuments[..n - 1];
          if doc.pathId == pathId && doc.IsValid() {
            tombstoneDocIds := tombstoneDocIds + [doc.docId];
            return;
          }
          n := n - 1;
        }
      }
    }

    method GetOrCreatePathId(relPath: Path) returns (pathId: PathId)
      requires PathMap(pathToId, existingPaths + newPaths) && nextPathId == |existingPaths + newPaths|
      modifies this`pathToId, this`newPaths, this`nextPathId
      ensures var ps := old(existingPaths + newPaths);
              existingPaths + newPaths == if relPath in ps then ps else ps + [relPath]
      ensures PathMap(pathToId, existingPaths + newPaths) && nextPathId == |existingPaths + newPaths|
      ensures pathId == PathIndexOr0(existingPaths + newPaths, relPath)
    {
      ghost var ps := existingPaths + newPaths;
      if relPath in pathToId {
        assert relPath in ps;
        PathIndexIs(ps, pathToId[relPath]);
        return pathToId[relPath];
      }
      pathId := nextPathId;
      nextPathId := nextPathId + 1;
      newPaths := newPaths + [relPath];
      pathToId := pathToId[relPath := pathId];
      assert existingPaths + newPaths == ps + [relPath];
      PathIndexIs(ps + [relPath], pathId);
    }

    method PushTrigrams(trigrams: seq<Trigram>, d: DocId)
      modifies this`segment
      ensures segment == old(segment).(trigrams := PushFirst(old(segment).trigrams, trigrams, |trigrams|, d))
    {
      var i := 0;
      while i < |trigrams|
        invariant 0 <= i <= |trigrams|
        invariant segment == old(segment).(trigrams := PushFirst(old(segment).trigrams, trigrams, i, d))
      {
        var m := segment.trigrams;
        segment := segment.(trigrams := m[trigrams[i] := Get(m, trigrams[i]) + [d]]);
        i := i + 1;
      }
    }

    method PushTokens(tokens: seq<Token>, d: DocId)
      modifies this`segment
      ensures segment == old(segment).(tokens := PushFirst(old(segment).tokens, tokens, |tokens|, d))
    {
      var i := 0;
      while i < |tokens|
        invariant 0 <= i <= |tokens|
        invariant segment == old(segment).(tokens := PushFirst(old(segment).tokens, tokens, i, d))
      {
        var m := segment.tokens;
        segment := segment.(tokens := m[tokens[i] := Get(m, tokens[i]) + [d]]);
        i := i + 1;
      }
    }

    method PushPositions(f: ProcessedFile, d: DocId)
      requires WellFormedFile(f)
      modifies this`segment
      ensures segment == old(segment).(positions := PlaceFirst(old(segment).positions, f, |f.tokenPositions|, d))
    {
      var i := 0;
      while i < |f.tokenPositions|
        invariant 0 <= i <= |f.tokenPositions|
        invariant segment == old(segment).(positions := PlaceFirst(old(segment).positions, f, i, d))
      {
        var (k, pos) := f.tokenPositions[i];
        var t := f.tokens[k];
        var row: map<DocId, seq<nat>> := Row(segment.positions, t);
        if d in row {
          row := row[d := row[d] + [pos]];
        } else {
          row := row[d := [pos]];
          assert [pos] == [] + [pos];
        }
        segment := segment.(positions := segment.positions[t := row]);
        i := i + 1;
      }
    }

    method AddFile(f: ProcessedFile)
      requires Valid() && WellFormedFile(f)
      modifies this`pathToId, this`newPaths, this`nextPathId, this`nextDocId, this`newDocuments, this`segment,
          this`files
      ensures Valid() && files == old(files) + [f]
    {
      hide WellFormedFile, AllWellFormed, AddToSegment, BuildSegment, PathMap, PathsAfter, NewDocs, MaxId, PathIndexOr0,
           PushFirst, PlaceFirst, NewDocument;
      ghost var before := files;
      var docId := nextDocId;
      nextDocId := nextDocId + 1;
      var pathId := GetOrCreatePathId(f.relPath);
      newDocuments := newDocuments + [NewDocument(docId, pathId, segmentId, f)];
      ghost var was := segment;
      PushTrigrams(f.trigrams, docId);
      PushPositions(f, docId);
      PushTokens(f.tokens, docId);
      segment := segment.(lineMaps := segment.lineMaps[docId := f.lineOffsets]);
      AddToSegmentIs(was, docId, f);
      files := files + [f];
      FilesSnoc(source.paths, MaxId(source.docs) + 1, segmentId, before, f);
    }

    predicate HasChanges()
      reads this
    {
      newDocuments != [] || tombstoneDocIds != []
    }

    /** What the files on disk say once everything is written. */
    method Finalize(meta: Index) returns (idx: Index)
      requires Valid() && meta == source
      ensures idx == ApplyDelta(source, segmentId, tombstoneDocIds, files)
    {
      hide PathMap, WellFormedFile, BuildSegment, PathsAfter, MaxId;
      NewDocsLength(source.paths, MaxId(source.docs) + 1, segmentId, files, |files|);
      if !HasChanges() {
        return meta;
      }
      var segments := meta.segments;
      if newDocuments != [] {
        segments := segments[segmentId := segment];
      }
      var allDocuments: seq<Document> := [];
      var i := 0;
      while i < |existingDocuments|
        invariant 0 <= i <= |existingDocuments| && |allDocuments| == i
        invariant allDocuments == Bury(existingDocuments, tombstoneDocIds)[..i]
      {
        var doc := existingDocuments[i];
        if doc.docId in tombstoneDocIds {
          doc := doc.(tombstone := true);
        }
        allDocuments := allDocuments + [doc];
        i := i + 1;
      }
      assert allDocuments == Bury(existingDocuments, tombstoneDocIds);
      idx := meta.(docs := allDocuments + newDocuments, paths := existingPaths + newPaths,
                   segments := segments, deltas := meta.deltas + [segmentId]);
    }
  }

  /** Buries every path of a list. */
  method MarkTombstones(writer: DeltaSegmentWriter, gone: seq<Path>)
    requires writer.Valid() && writer.files == [] && writer.tombstoneDocIds == []
    modifies writer`tombstoneDocIds
    ensures writer.tombstoneDocIds == DeadForAll(writer.source, gone)
  {
    hide DeltaSegmentWriter.Valid, DeadFor;
    var i := 0;
    while i < |gone|
      invariant 0 <= i <= |gone| && writer.Valid() && writer.files == []
      invariant writer.tombstoneDocIds == DeadForAll(writer.source, gone[..i])
    {
      assert gone[..i + 1][..i] == gone[..i];
      writer.MarkTombstone(gone[i]);
      i := i + 1;
    }
    assert gone[..i] == gone;
  }

  lemma AddToSegmentIs(seg: Segment, d: DocId, f: ProcessedFile)
    requires WellFormedFile(f)
    ensures AddToSegment(seg, d, f) == Segment(
        PushFirst(seg.trigrams, f.trigrams, |f.trigrams|, d),
        PushFirst(seg.tokens, f.tokens, |f.tokens|, d),
        PlaceFirst(seg.positions, f, |f.tokenPositions|, d),
        seg.lineMaps[d := f.lineOffsets])
  {
  }

  lemma {:induction false} PrefixPaths(paths: seq<Path>, files: seq<ProcessedFile>, f: ProcessedFile, n: nat)
    requires n <= |files|
    ensures PathsAfter(paths, files + [f], n) == PathsAfter(paths, files, n)
  {
    if n > 0 {
      PrefixPaths(paths, files, f, n - 1);
    }
  }

  lemma {:induction false} PrefixDocs(paths: seq<Path>, first: DocId, s: SegmentId, files: seq<ProcessedFile>,
      f: ProcessedFile, n: nat)
    requires n <= |files|
    ensures NewDocs(paths, first, s, files + [f], n) == NewDocs(paths, first, s, files, n)
  {
    if n > 0 {
      PrefixDocs(paths, first, s, files, f, n - 1);
      PrefixPaths(paths, files, f, n);
    }
  }

  lemma {:induction false} PrefixSegment(first: DocId, files: seq<ProcessedFile>, f: ProcessedFile, n: nat)
    requires n <= |files| && AllWellFormed(files) && AllWellFormed(files + [f])
    ensures BuildFirst(first, files + [f], n) == BuildFirst(first, files, n)
  {
    hide WellFormedFile, AddToSegment;
    if n > 0 {
      PrefixSegment(first, files, f, n - 1);
    }
  }

  lemma PathsSnoc(paths: seq<Path>, files: seq<ProcessedFile>, f: ProcessedFile)
    ensures var ps := PathsAfter(paths, files, |files|);
            PathsAfter(paths, files + [f], |files + [f]|) == if f.relPath in ps then ps else ps + [f.relPath]
  {
    PrefixPaths(paths, files, f, |files|);
  }

  lemma DocsSnoc(paths: seq<Path>, first: DocId, s: SegmentId, files: seq<ProcessedFile>, f: ProcessedFile)
    ensures var more := files + [f];
            NewDocs(paths, first, s, more, |more|) == NewDocs(paths, first, s, files, |files|)
            + [NewDocument(first + |files|, PathIndexOr0(PathsAfter(paths, more, |more|), f.relPath), s, f)]
  {
    PrefixDocs(paths, first, s, files, f, |files|);
    hide PathsAfter, PathIndexOr0;
  }

  lemma SegmentSnoc(first: DocId, files: seq<ProcessedFile>, f: ProcessedFile)
    requires AllWellFormed(files) && WellFormedFile(f)
    ensures AllWellFormed(files + [f])
    ensures BuildSegment(first, files + [f]) == AddToSegment(BuildSegment(first, files), first + |files|, f)
  {
    hide WellFormedFile, AddToSegment;
    assert AllWellFormed(files + [f]);
    PrefixSegment(first, files, f, |files|);
  }

  /** One more file: what the value-level delta gains. */
  lemma FilesSnoc(paths: seq<Path>, first: DocId, s: SegmentId, files: seq<ProcessedFile>, f: ProcessedFile)
    requires AllWellFormed(files) && WellFormedFile(f)
    ensures var more := files + [f];
            && AllWellFormed(more)
            && (var ps := PathsAfter(paths, files, |files|);
                PathsAfter(paths, more, |more|) == if f.relPath in ps then ps else ps + [f.relPath])
            && NewDocs(paths, first, s, more, |more|) == NewDocs(paths, first, s, files, |files|)
               + [NewDocument(first + |files|, PathIndexOr0(PathsAfter(paths, more, |more|), f.relPath), s, f)]
            && BuildSegment(first, more) == AddToSegment(BuildSegment(first, files), first + |files|, f)
  {
    PathsSnoc(paths, files, f);
    DocsSnoc(paths, first, s, files, f);
    SegmentSnoc(first, files, f);
    hide *;
  }

  lemma {:induction false} NewDocsLength(paths: seq<Path>, first: DocId, s: SegmentId, files: seq<ProcessedFile>,
      n: nat)
    requires n <= |files|
    ensures |NewDocs(paths, first, s, files, n)| == n
  {
    if n > 0 {
      NewDocsLength(paths, first, s, files, n - 1);
    }
  }
}
