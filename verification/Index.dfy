/**
  What an index on disk says (src/index/types.rs): a document table, a path
  store, and segments of postings. Posting lists are kept as lists; codec and
  dictionary layout are the subject of Encoding and SegmentFile.
*/
module Index {
  import opened Prelude

  type DocId = nat
  type PathId = nat
  type SegmentId = nat
  type Trigram = nat
  type Token = string
  type Path = string

  datatype Document = Document(
    docId: DocId,
    pathId: PathId,
    size: nat,
    mtime: nat,
    language: nat,
    minified: bool,
    stale: bool,
    tombstone: bool,
    segmentId: SegmentId)
  {
    predicate IsValid() {
      !stale && !tombstone
    }
  }

  /** What extraction makes of one file. */
  datatype ProcessedFile = ProcessedFile(
    relPath: Path,
    mtime: nat,
    size: nat,
    language: nat,
    minified: bool,
    trigrams: seq<Trigram>,
    tokens: seq<Token>,
    lineOffsets: seq<nat>,
    tokenPositions: seq<(nat, nat)>)  // (index into tokens, word position)

  ghost predicate WellFormedFile(f: ProcessedFile) {
    && Distinct(f.trigrams)
    && Distinct(f.tokens)
    && forall k :: 0 <= k < |f.tokenPositions| ==> f.tokenPositions[k].0 < |f.tokens|
  }

  type Postings<!K> = map<K, seq<DocId>>
  type PositionPostings = map<Token, map<DocId, seq<nat>>>

  datatype Segment = Segment(
    trigrams: Postings<Trigram>,
    tokens: Postings<Token>,
    positions: PositionPostings,
    lineMaps: map<DocId, seq<nat>>)

  const EMPTY_SEGMENT := Segment(map[], map[], map[], map[])

  datatype Index = Index(
    docs: seq<Document>,
    paths: seq<Path>,
    segments: map<SegmentId, Segment>,
    base: Option<SegmentId>,
    deltas: seq<SegmentId>,
    stopGrams: set<Trigram>,
    rejected: seq<(Path, nat)>)

  const EMPTY_INDEX := Index([], [], map[], None, [], {}, [])

  /** The segments a reader opens, oldest first. */
  function Active(idx: Index): seq<SegmentId> {
    (if idx.base.Some? then [idx.base.value] else []) + idx.deltas
  }

  function Get<K>(m: Postings<K>, k: K): seq<DocId> {
    if k in m then m[k] else []
  }

  /** Whether the list of `k` names document `d`. */
  predicate Posts<K>(m: Postings<K>, k: K, d: DocId) {
    k in m && d in m[k]
  }

  /** The keys whose lists name `d`. */
  function KeysWith<K>(m: Postings<K>, d: DocId): set<K> {
    set k | k in m && Posts(m, k, d)
  }

  predicate Places(m: PositionPostings, t: Token, d: DocId) {
    t in m && d in m[t]
  }

  /** The position lists a document has, by token. */
  function PositionsWith(m: PositionPostings, d: DocId): map<Token, seq<nat>> {
    map t | t in m && Places(m, t, d) :: m[t][d]
  }

  function Row(m: PositionPostings, t: Token): map<DocId, seq<nat>> {
    if t in m then m[t] else map[]
  }

  // --------------------------------------------- what a segment says of a doc

  /** The content of a file as the index can recall it. */
  datatype FileData = FileData(tokens: set<Token>, positions: map<Token, seq<nat>>, lines: Option<seq<nat>>)

  function DataIn(seg: Segment, d: DocId): FileData {
    FileData(
      KeysWith(seg.tokens, d),
      PositionsWith(seg.positions, d),
      if d in seg.lineMaps then Some(seg.lineMaps[d]) else None)
  }

  function TrigramsIn(seg: Segment, d: DocId): set<Trigram> {
    KeysWith(seg.trigrams, d)
  }

  /** Whether any list of the segment names the document. */
  ghost predicate Mentions(seg: Segment, d: DocId) {
    || KeysWith(seg.trigrams, d) != {}
    || KeysWith(seg.tokens, d) != {}
    || PositionsWith(seg.positions, d) != map[]
    || d in seg.lineMaps
  }

  /** Every list is strictly ascending, as the delta codec and the searches by doc id need. */
  ghost predicate Sorted(seg: Segment) {
    && (forall t :: t in seg.trigrams ==> Ascending(seg.trigrams[t]))
    && (forall t :: t in seg.tokens ==> Ascending(seg.tokens[t]))
  }

  // ------------------------------------------------------- the document table

  /** The last valid document with a path id: the one `mark_tombstone` finds. */
  function FindLast(docs: seq<Document>, pathId: PathId): (r: Option<Document>)
    ensures r.Some? ==> r.value in docs && r.value.IsValid() && r.value.pathId == pathId
  {
    if docs == [] then None
    else
      var last := docs[|docs| - 1];
      if last.pathId == pathId && last.IsValid() then Some(last) else FindLast(docs[..|docs| - 1], pathId)
  }

  /** The largest document id, 0 if there is none. */
  function MaxId(docs: seq<Document>): DocId {
    if docs == [] then 0
    else
      var m := MaxId(docs[..|docs| - 1]);
      if docs[|docs| - 1].docId > m then docs[|docs| - 1].docId else m
  }

  lemma {:induction false} MaxIdBounds(docs: seq<Document>)
    ensures forall i :: 0 <= i < |docs| ==> docs[i].docId <= MaxId(docs)
    decreases |docs|
  {
    if docs != [] {
      MaxIdBounds(docs[..|docs| - 1]);
      assert forall i :: 0 <= i < |docs| - 1 ==> docs[..|docs| - 1][i] == docs[i];
    }
  }

  /** Position of a path in the store. */
  function PathIndex(paths: seq<Path>, p: Path): (r: Option<PathId>)
    ensures r.Some? ==> r.value < |paths| && paths[r.value] == p
    ensures r.None? ==> p !in paths
  {
    if paths == [] then None
    else if paths[|paths| - 1] == p then Some(|paths| - 1)
    else PathIndex(paths[..|paths| - 1], p)
  }

  /** The valid document of a path. */
  function LiveDoc(idx: Index, p: Path): (r: Option<Document>)
    ensures r.Some? ==> r.value in idx.docs && r.value.IsValid()
    ensures r.Some? ==> r.value.pathId < |idx.paths| && idx.paths[r.value.pathId] == p
  {
    match PathIndex(idx.paths, p)
    case None => None
    case Some(id) => FindLast(idx.docs, id)
  }

  /** What the index knows of a path: when it was read and what was in it. */
  datatype Known = Known(mtime: nat, size: nat, language: nat, minified: bool, data: FileData)

  function Recall(idx: Index, doc: Document): Known {
    Known(doc.mtime, doc.size, doc.language, doc.minified,
          if doc.segmentId in idx.segments then DataIn(idx.segments[doc.segmentId], doc.docId)
          else DataIn(EMPTY_SEGMENT, doc.docId))
  }

  function Lookup(idx: Index, p: Path): Option<Known> {
    match LiveDoc(idx, p)
    case None => None
    case Some(doc) => Some(Recall(idx, doc))
  }

  /** Trigrams the index holds for a document. */
  function TrigramsOf(idx: Index, doc: Document): set<Trigram> {
    if doc.segmentId in idx.segments then TrigramsIn(idx.segments[doc.segmentId], doc.docId) else {}
  }

  /** Trigrams the index holds for a path. */
  function LiveTrigrams(idx: Index, p: Path): set<Trigram> {
    match LiveDoc(idx, p)
    case None => {}
    case Some(doc) => TrigramsOf(idx, doc)
  }

  // ---------------------------------------------------------------- validity

  ghost predicate AscendingIds(docs: seq<Document>) {
    && (forall i :: 0 <= i < |docs| ==> docs[i].docId >= 1)
    && (forall i, j :: 0 <= i < j < |docs| ==> docs[i].docId < docs[j].docId)
  }

  /** No path has two valid documents. */
  ghost predicate OneLive(docs: seq<Document>) {
    forall i, j :: 0 <= i < j < |docs| && docs[i].IsValid() && docs[j].IsValid() ==> docs[i].pathId != docs[j].pathId
  }

  ghost predicate PathIdsIn(docs: seq<Document>, n: nat) {
    forall i :: 0 <= i < |docs| ==> docs[i].pathId < n
  }

  /** Some document carries this id and belongs to this segment. */
  ghost predicate Owns(docs: seq<Document>, d: DocId, s: SegmentId) {
    exists i :: 0 <= i < |docs| && docs[i].docId == d && docs[i].segmentId == s
  }

  /** Segment ids are distinct and grow from the base on. */
  ghost predicate SegmentOrder(idx: Index) {
    && Distinct(Active(idx))
    && (idx.base.Some? ==> forall k :: 0 <= k < |idx.deltas| ==> idx.base.value < idx.deltas[k])
    && (forall k :: 0 <= k < |Active(idx)| ==> Active(idx)[k] >= 1)
  }

  /** A segment on disk is in use, in order, and names only documents of its own. */
  ghost predicate SegmentSound(idx: Index, s: SegmentId)
    requires s in idx.segments
  {
    && s in Active(idx)
    && Sorted(idx.segments[s])
    && forall d: DocId :: Mentions(idx.segments[s], d) ==> Owns(idx.docs, d, s)
  }

  ghost predicate SegmentsSound(idx: Index) {
    forall s :: s in idx.segments ==> SegmentSound(idx, s)
  }

  /** The segment of every valid document is there to be read. */
  ghost predicate SegmentsPresent(idx: Index) {
    forall i :: 0 <= i < |idx.docs| && idx.docs[i].IsValid() ==>
      idx.docs[i].segmentId in Active(idx) && idx.docs[i].segmentId in idx.segments
  }

  /** The invariant every writer keeps. */
  ghost predicate Valid(idx: Index) {
    && AscendingIds(idx.docs)
    && PathIdsIn(idx.docs, |idx.paths|)
    && Distinct(idx.paths)
    && OneLive(idx.docs)
    && SegmentOrder(idx)
    && SegmentsSound(idx)
    && SegmentsPresent(idx)
  }

  // ------------------------------------------------------------ basic lemmas

  lemma {:induction false} FindLastIs(docs: seq<Document>, pathId: PathId, i: nat)
    requires i < |docs| && docs[i].IsValid() && docs[i].pathId == pathId
    requires forall j :: i < j < |docs| ==> !(docs[j].IsValid() && docs[j].pathId == pathId)
    ensures FindLast(docs, pathId) == Some(docs[i])
    decreases |docs|
  {
    if i < |docs| - 1 {
      FindLastIs(docs[..|docs| - 1], pathId, i);
    }
  }

  /** With one live document per path the search finds that one. */
  lemma FindLastUnique(docs: seq<Document>, i: nat)
    requires OneLive(docs) && i < |docs| && docs[i].IsValid()
    ensures FindLast(docs, docs[i].pathId) == Some(docs[i])
  {
    FindLastIs(docs, docs[i].pathId, i);
  }

  lemma {:induction false} PathIndexIs(paths: seq<Path>, id: PathId)
    requires Distinct(paths) && id < |paths|
    ensures PathIndex(paths, paths[id]) == Some(id)
    decreases |paths|
  {
    if id < |paths| - 1 {
      PathIndexIs(paths[..|paths| - 1], id);
    }
  }

  /** A valid document is found under its path. */
  lemma LiveDocIs(idx: Index, i: nat)
    requires PathIdsIn(idx.docs, |idx.paths|) && Distinct(idx.paths) && OneLive(idx.docs)
    requires i < |idx.docs| && idx.docs[i].IsValid()
    ensures LiveDoc(idx, idx.paths[idx.docs[i].pathId]) == Some(idx.docs[i])
  {
    PathIndexIs(idx.paths, idx.docs[i].pathId);
    FindLastUnique(idx.docs, i);
  }
}
