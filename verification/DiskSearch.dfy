/**
  Searching an index that knows the files as they are is reading the files.
*/
module DiskSearch {
  import opened Prelude
  import opened Text
  import opened Index
  import opened SegmentBuilder
  import opened Extraction
  import opened Processing
  import opened Reader
  import opened Verify
  import opened Planner
  import opened Matches
  import opened Executor
  import opened Search
  import opened Narrowing

  // ----------------------------------------------------------- documents and files

  /** An index, the files there are, and what compactions have taken out of the postings. */
  datatype Snapshot = Snapshot(index: Index, fs: FileSystem, stripped: set<Trigram>)

  /** What a search of it works on: a file that is no UTF-8 text cannot be read. */
  function EnvOf(s: Snapshot, engine: Engine, pathAccepts: (FilterStep, Path) -> bool): Env {
    Env(s.index, map p | p in s.fs && IsText(s.fs[p].content) :: s.fs[p].content, engine, pathAccepts)
  }

  /** Each path is known as it is, with all trigrams but stop-grams. */
  ghost predicate Caught(s: Snapshot, extract: Extractor)
    requires Sound(extract)
  {
    && Valid(s.index) && s.stripped <= s.index.stopGrams
    && forall p :: Right(s.index, s.fs, p, extract, s.stripped)
  }

  /** The valid document of an indexable file, and the file of a valid document. */
  lemma LiveIffIndexable(s: Snapshot, extract: Extractor, p: Path)
    requires Sound(extract) && Caught(s, extract)
    ensures LiveDoc(s.index, p).Some? <==> ExtractAt(extract, s.fs, p).Some?
  {
    assert Right(s.index, s.fs, p, extract, s.stripped);
    UnknownDead(s.index, p);
    hide Lookup, LiveDoc, LiveTrigrams, Grams;
  }

  lemma UnknownDead(idx: Index, p: Path)
    ensures Lookup(idx, p).None? <==> LiveDoc(idx, p).None?
  {
  }

  lemma LiveIsFound(idx: Index, p: Path) returns (d: DocId)
    requires Valid(idx) && LiveDoc(idx, p).Some?
    ensures GetDocument(idx, d) == LiveDoc(idx, p) && d in ValidIds(idx)
  {
    var doc := LiveDoc(idx, p).value;
    d := doc.docId;
    var i :| 0 <= i < |idx.docs| && idx.docs[i] == doc;
    GetDocumentIs(idx, i);
  }

  lemma ValidIsLive(idx: Index, d: DocId) returns (p: Path)
    requires Valid(idx) && d in ValidIds(idx)
    ensures GetDocument(idx, d) == LiveDoc(idx, p) && LiveDoc(idx, p).Some?
  {
    var i :| 0 <= i < |idx.docs| && idx.docs[i].IsValid() && idx.docs[i].docId == d;
    GetDocumentIs(idx, i);
    LiveDocIs(idx, i);
    p := idx.paths[idx.docs[i].pathId];
  }

  lemma PathOfLive(env: Env, d: DocId, p: Path)
    requires GetDocument(env.idx, d) == LiveDoc(env.idx, p) && LiveDoc(env.idx, p).Some?
    ensures Executor.PathOf(env, d) == Some(p)
    ensures p in env.files ==> ContentOf(env, d) == Some(env.files[p])
  {
  }

  lemma SegmentOfLive(idx: Index, p: Path)
    requires Valid(idx) && LiveDoc(idx, p).Some?
    ensures LiveDoc(idx, p).value.segmentId in Active(idx)
  {
    var i :| 0 <= i < |idx.docs| && idx.docs[i] == LiveDoc(idx, p).value;
    assert SegmentsPresent(idx);
  }

  /** A processed text is what a search expects extraction to be. */
  lemma ProcessedIsExtracted(f: ProcessedFile, s: string)
    requires Processed(f, Utf8(s))
    ensures Extracts(f, s)
  {
    ProcessedIsWellFormed(f, Utf8(s));
    LossyRoundTrip(s);
  }

  lemma RecallOfLive(idx: Index, fs: FileSystem, extract: Extractor, gone: set<Trigram>, p: Path)
    requires Sound(extract) && Right(idx, fs, p, extract, gone) && ExtractAt(extract, fs, p).Some?
    ensures LiveDoc(idx, p).Some?
    ensures var doc, f := LiveDoc(idx, p).value, ExtractAt(extract, fs, p).value;
            && Recall(idx, doc).data == DataOf(f)
            && Elements(f.trigrams) - gone <= TrigramsOf(idx, doc) <= Elements(f.trigrams)
            && doc.size == f.size && doc.mtime == f.mtime && doc.language == f.language && doc.IsValid()
  {
    hide DataIn, TrigramsIn, DataOf;
  }

  /** In a state that has caught up, the valid document of a text file is up to date. */
  lemma CaughtIsUpToDate(s: Snapshot, extract: Extractor, env: Env, p: Path, d: DocId, text: string)
    requires Faithful(extract) && Sound(extract) && Caught(s, extract)
    requires env == EnvOf(s, env.engine, env.pathAccepts)
    requires ExtractAt(extract, s.fs, p).Some? && s.fs[p].content == Utf8(text)
    requires GetDocument(s.index, d) == LiveDoc(s.index, p) && d in ValidIds(s.index)
    ensures UpToDate(env, d, text)
  {
    TextIff(s.fs[p].content);
    var f := ExtractAt(extract, s.fs, p).value;
    assert Processed(f, Utf8(text));
    assert Right(s.index, s.fs, p, extract, s.stripped);
    RecallOfLive(s.index, s.fs, extract, s.stripped, p);
    PathOfLive(env, d, p);
    SegmentOfLive(s.index, p);
    var doc := LiveDoc(s.index, p).value;
    assert Elements(f.trigrams) - s.index.stopGrams <= TrigramsOf(s.index, doc);
    assert ContentOf(env, d) == Some(Utf8(text));
    hide *;
    ProcessedIsExtracted(f, text);
    RecordedIsFromText(s.index, doc, f, text);
    IsUpToDate(env, d, text, doc);
  }

  lemma IsUpToDate(env: Env, d: DocId, text: string, doc: Document)
    requires d in ValidIds(env.idx) && ContentOf(env, d) == Some(Utf8(text))
    requires GetDocument(env.idx, d) == Some(doc) && FromText(env.idx, doc, text)
    ensures UpToDate(env, d, text)
  {
  }

  // -------------------------------------------------------------- the composition

  /** Whether a file passes the filters of a query, by what is recorded of it. */
  predicate FilePasses(f: ProcessedFile, filters: FilterStep, p: Path, pathAccepts: (FilterStep, Path) -> bool) {
    && (filters.pathGlob.Some? || filters.filename.Some? || filters.extension.Some? ==> pathAccepts(filters, p))
    && (filters.language.Some? ==> f.language == filters.language.value)
    && (filters.sizeMin.Some? ==> filters.sizeMin.value <= f.size)
    && (filters.sizeMax.Some? ==> f.size <= filters.sizeMax.value)
    && (filters.mtimeMin.Some? ==> filters.mtimeMin.value <= f.mtime)
    && (filters.mtimeMax.Some? ==> f.mtime <= filters.mtimeMax.value)
  }

  /**
    Reading the file itself: it is there, can be indexed, is a text, passes the
    filters, and the query shows something of its content in the lines asked for.
  */
  ghost predicate Grep(s: Snapshot, extract: Extractor, q: Query, p: Path, engine: Engine,
      pathAccepts: (FilterStep, Path) -> bool) {
    && ExtractAt(extract, s.fs, p).Some? && IsText(s.fs[p].content)
    && (q.filters != NO_FILTER ==> FilePasses(ExtractAt(extract, s.fs, p).value, q.filters, p, pathAccepts))
    && Shows(q, s.fs[p].content, engine)
  }

  /** If the file at the path is a text, it is one on which the query can be trusted. */
  ghost predicate Serves(s: Snapshot, extract: Extractor, env: Env, q: Query, p: Path) {
    ExtractAt(extract, s.fs, p).Some? && IsText(s.fs[p].content) ==>
      && Supported(env, q.root, FromUtf8Lossy(s.fs[p].content))
      && ComparableOn(env, q, s.fs[p].content)
  }

  lemma DocServed(s: Snapshot, extract: Extractor, env: Env, q: Query, p: Path, d: DocId)
    requires Faithful(extract) && Sound(extract) && Caught(s, extract) && Serves(s, extract, env, q, p)
    requires env == EnvOf(s, env.engine, env.pathAccepts) && d in ValidIds(s.index)
    requires Executor.PathOf(env, d) == Some(p) && p in env.files
    ensures Served(env, q, d)
  {
    assert Valid(s.index);
    assert p in s.fs && IsText(s.fs[p].content);
    var text := FromUtf8Lossy(s.fs[p].content);
    assert s.fs[p].content == Utf8(text);
    hide Caught, Valid, UpToDate, Supported, ComparableOn, Faithful, Sound, ValidIds, LiveDoc, GetDocument, Utf8,
        FromUtf8Lossy, Executor.PathOf;
    ValidAtPath(env, d, p);
    LiveIffIndexable(s, extract, p);
    CaughtIsUpToDate(s, extract, env, p, d, text);
  }

  lemma LivePasses(s: Snapshot, extract: Extractor, env: Env, filters: FilterStep, p: Path, d: DocId)
    requires Sound(extract) && Caught(s, extract) && env == EnvOf(s, env.engine, env.pathAccepts)
    requires ExtractAt(extract, s.fs, p).Some? && GetDocument(s.index, d) == LiveDoc(s.index, p)
    ensures Passes(env, filters, d) <==> FilePasses(ExtractAt(extract, s.fs, p).value, filters, p, env.pathAccepts)
  {
    assert Right(s.index, s.fs, p, extract, s.stripped);
    RecallOfLive(s.index, s.fs, extract, s.stripped, p);
    PathOfLive(env, d, p);
    hide Right, Caught, LiveDoc, GetDocument, Executor.PathOf, Recall, DataOf, TrigramsOf;
  }

  /** Only the live document of a path is valid and has the path. */
  lemma ValidAtPath(env: Env, d: DocId, p: Path)
    requires Valid(env.idx) && d in ValidIds(env.idx) && Executor.PathOf(env, d) == Some(p)
    ensures GetDocument(env.idx, d) == LiveDoc(env.idx, p) && LiveDoc(env.idx, p).Some?
  {
    var o := ValidIsLive(env.idx, d);
    hide Valid, LiveDoc, GetDocument, ValidIds;
    PathOfLive(env, d, o);
  }

  /** A live match is a file that reading finds. */
  lemma LiveMatchIsGrep(s: Snapshot, extract: Extractor, env: Env, q: Query, p: Path)
    requires Sound(extract) && Caught(s, extract) && env == EnvOf(s, env.engine, env.pathAccepts)
    ensures LiveMatch(env, q, p) <==> Grep(s, extract, q, p, env.engine, env.pathAccepts)
  {
    assert Valid(s.index);
    LiveIffIndexable(s, extract, p);
    hide Caught, Valid, Sound, ValidIds, LiveDoc, GetDocument, Passes, FilePasses, Shows, Executor.PathOf, ContentOf;
    if LiveMatch(env, q, p) {
      var d :| d in ValidIds(env.idx) && Executor.PathOf(env, d) == Some(p)
               && (q.filters != NO_FILTER ==> Passes(env, q.filters, d))
               && ContentOf(env, d).Some? && Shows(q, ContentOf(env, d).value, env.engine);
      ValidAtPath(env, d, p);
      PathOfLive(env, d, p);
      LivePasses(s, extract, env, q.filters, p, d);
    }
    if Grep(s, extract, q, p, env.engine, env.pathAccepts) {
      var d := LiveIsFound(s.index, p);
      PathOfLive(env, d, p);
      LivePasses(s, extract, env, q.filters, p, d);
    }
  }

  lemma CoveredWhereIndexable(s: Snapshot, extract: Extractor, env: Env, p: Path)
    requires Sound(extract) && Caught(s, extract) && env == EnvOf(s, env.engine, env.pathAccepts)
    requires p in s.fs && IsText(s.fs[p].content) ==> ExtractAt(extract, s.fs, p).Some?
    ensures PathCovered(env, p)
  {
    LiveIffIndexable(s, extract, p);
    assert Valid(s.index);
    hide Caught, Valid, Sound, ValidIds, LiveDoc, GetDocument, Executor.PathOf;
    if p in env.files {
      var d := LiveIsFound(s.index, p);
      PathOfLive(env, d, p);
    }
  }

  /** A search of an index that has caught up reports exactly what reading the files finds. */
  lemma CaughtSearchIsGrep(s: Snapshot, extract: Extractor, env: Env, q: Query, p: Path)
    requires Faithful(extract) && Sound(extract) && Caught(s, extract) && env == EnvOf(s, env.engine, env.pathAccepts)
    requires !q.caseInsensitive && Says(q.root)
    requires Serves(s, extract, env, q, p)
    requires p in s.fs && IsText(s.fs[p].content) ==> ExtractAt(extract, s.fs, p).Some?
    ensures SearchFinds(env, q, p) <==> Grep(s, extract, q, p, env.engine, env.pathAccepts)
  {
    assert Valid(env.idx);
    hide *;
    CoveredWhereIndexable(s, extract, env, p);
    forall d | d in ValidIds(env.idx) && Executor.PathOf(env, d) == Some(p) && p in env.files
      ensures Served(env, q, d)
    {
      SameIndex(s, env);
      DocServed(s, extract, env, q, p, d);
    }
    SearchIsExact(env, q, p);
    LiveMatchIsGrep(s, extract, env, q, p);
  }

  lemma SameIndex(s: Snapshot, env: Env)
    requires env == EnvOf(s, env.engine, env.pathAccepts)
    ensures env.idx == s.index
  {
  }

  /**
    A query that says something reports only files that are UTF-8 texts: others
    are indexed, by their trigrams, but no search reads them.
  */
  lemma ReportedIsText(s: Snapshot, env: Env, q: Query, p: Path)
    requires env == EnvOf(s, env.engine, env.pathAccepts) && Says(q.root) && SearchFinds(env, q, p)
    ensures p in s.fs && exists text :: s.fs[p].content == Utf8(text)
  {
    hide SearchFinds, PlanNode, Says, IsText, Utf8;
    VerificationMeans(q.root, q.caseInsensitive, [], env.engine);
    if p !in env.files {
      UnreadNotFound(env, q, p);
    }
    assert p in s.fs && IsText(s.fs[p].content);
    TextIff(s.fs[p].content);
  }
}
