/**
  Every query, with and without -i: which paths a search of an index that knows
  the files reports, told by the texts of the files, the stop-grams and the query.
*/
module EveryQuery {
  import opened Prelude
  import opened Text
  import opened Index
  import opened SegmentBuilder
  import opened Extraction
  import opened Reader
  import opened Processing
  import opened Verify
  import opened Planner
  import opened Matches
  import opened Executor
  import opened Search
  import opened Narrowing
  import opened DiskSearch
  import opened Candidates
  import Build
  import Updates
  import WatchPipeline
  import WatchSearch

  /** Whether a text narrows as the query asks, and the file passes its filters. */
  ghost predicate Narrowed(stop: set<Trigram>, q: Query, f: ProcessedFile, text: string, p: Path, engine: Engine,
      pathAccepts: (FilterStep, Path) -> bool) {
    if q.filters == NO_FILTER then Candidate(stop, q.root, q.caseInsensitive, text, engine)
    else
      && FilePasses(f, q.filters, p, pathAccepts)
      && Fits(stop, q.root, q.caseInsensitive, text, engine) && !Barred(stop, q.root, q.caseInsensitive, text, engine)
  }

  /** What the index finds of a path: a text that can be indexed, narrows, and has something to show. */
  ghost predicate Reports(s: Snapshot, extract: Extractor, q: Query, p: Path, engine: Engine,
      pathAccepts: (FilterStep, Path) -> bool) {
    && ExtractAt(extract, s.fs, p).Some? && IsText(s.fs[p].content)
    && var f, text := ExtractAt(extract, s.fs, p).value, FromUtf8Lossy(s.fs[p].content);
       Narrowed(s.index.stopGrams, q, f, text, p, engine, pathAccepts) && Shows(q, Utf8(text), engine)
  }

  /** No text of the query is empty. */
  ghost predicate HasTexts(q: Query) {
    PlanQuery(q).verification.Some? ==> NonEmptyTexts(PlanQuery(q).verification.value)
  }

  /** The path is reached through a buried document. */
  ghost predicate BuriedFinds(env: Env, q: Query, p: Path) {
    exists d :: d !in ValidIds(env.idx) && Searched(env, q, d) && Executor.PathOf(env, d) == Some(p)
  }

  lemma SearchedAtPath(s: Snapshot, extract: Extractor, env: Env, q: Query, p: Path, d: DocId)
    requires Faithful(extract) && Sound(extract) && Caught(s, extract) && env == EnvOf(s, env.engine, env.pathAccepts)
    requires Says(q.root) && HasTexts(q)
    requires ExtractAt(extract, s.fs, p).Some? && IsText(s.fs[p].content)
    requires GetDocument(s.index, d) == LiveDoc(s.index, p) && d in ValidIds(s.index)
    ensures Searched(env, q, d) <==> Reports(s, extract, q, p, env.engine, env.pathAccepts)
  {
    var text := FromUtf8Lossy(s.fs[p].content);
    assert s.fs[p].content == Utf8(text);
    assert Valid(s.index);
    hide Caught, Valid, Faithful, Sound, ValidIds, LiveDoc, GetDocument, Utf8, FromUtf8Lossy, Searched, Says,
        Shows, Candidate, Fits, Barred, FilePasses, Passes, Narrowing.UpToDate, PlanQuery;
    CaughtIsUpToDate(s, extract, env, p, d, text);
    LivePasses(s, extract, env, q.filters, p, d);
    SearchedIff(env, q, d, text);
  }

  /**
    A search of an index that has caught up, for every query that says something:
    a path is reported exactly when the file there is a text that narrows and has
    something to show, or through a buried document; the latter never with
    filters, and never when no document is buried.
  */
  lemma CaughtSearchIff(s: Snapshot, extract: Extractor, env: Env, q: Query, p: Path)
    requires Faithful(extract) && Sound(extract) && Caught(s, extract) && env == EnvOf(s, env.engine, env.pathAccepts)
    requires Says(q.root) && HasTexts(q)
    ensures SearchFinds(env, q, p) <==>
            Reports(s, extract, q, p, env.engine, env.pathAccepts) || BuriedFinds(env, q, p)
    ensures q.filters != NO_FILTER || (forall i :: 0 <= i < |s.index.docs| ==> s.index.docs[i].IsValid()) ==>
            !BuriedFinds(env, q, p)
  {
    assert Valid(s.index);
    if SearchFinds(env, q, p) {
      ReportedIsText(s, env, q, p);
    }
    hide *;
    SameIndex(s, env);
    if Reports(s, extract, q, p, env.engine, env.pathAccepts) {
      ReportsParts(s, extract, q, p, env.engine, env.pathAccepts);
      LiveIffIndexable(s, extract, p);
      var d := LiveIsFound(s.index, p);
      PathOfLive(env, d, p);
      SearchedAtPath(s, extract, env, q, p, d);
      FoundAt(env, q, p, d);
    }
    if SearchFinds(env, q, p) && !BuriedFinds(env, q, p) {
      var d := ValidFinds(env, q, p);
      ValidAtPath(env, d, p);
      LiveIffIndexable(s, extract, p);
      FileIsText(s.fs[p].content);
      SearchedAtPath(s, extract, env, q, p, d);
    }
    if BuriedFinds(env, q, p) {
      BuriedFindsFound(env, q, p);
    }
    NothingBuried(env, q, p);
  }

  lemma FileIsText(content: seq<Byte>)
    ensures (exists text :: content == Utf8(text)) <==> IsText(content)
  {
    TextIff(content);
  }

  lemma ReportsParts(s: Snapshot, extract: Extractor, q: Query, p: Path, engine: Engine,
      pathAccepts: (FilterStep, Path) -> bool)
    requires Reports(s, extract, q, p, engine, pathAccepts)
    ensures ExtractAt(extract, s.fs, p).Some? && IsText(s.fs[p].content)
  {
    hide ExtractAt, IsText, Narrowed, Shows;
  }

  lemma FoundAt(env: Env, q: Query, p: Path, d: DocId)
    requires Searched(env, q, d) && Executor.PathOf(env, d) == Some(p)
    ensures SearchFinds(env, q, p)
  {
    hide Searched, Executor.PathOf;
  }

  lemma ValidFinds(env: Env, q: Query, p: Path) returns (d: DocId)
    requires SearchFinds(env, q, p) && !BuriedFinds(env, q, p)
    ensures d in ValidIds(env.idx) && Searched(env, q, d) && Executor.PathOf(env, d) == Some(p)
  {
    hide Searched, Executor.PathOf, ValidIds;
    d :| Searched(env, q, d) && Executor.PathOf(env, d) == Some(p);
  }

  lemma BuriedFindsFound(env: Env, q: Query, p: Path)
    requires BuriedFinds(env, q, p)
    ensures SearchFinds(env, q, p)
  {
    hide Searched, Executor.PathOf, ValidIds;
  }

  lemma NothingBuried(env: Env, q: Query, p: Path)
    ensures q.filters != NO_FILTER || (forall i :: 0 <= i < |env.idx.docs| ==> env.idx.docs[i].IsValid()) ==>
            !BuriedFinds(env, q, p)
  {
    hide Simple, Report, Executor.PathOf, ValidIds, Passes;
    if BuriedFinds(env, q, p) {
      var d :| d !in ValidIds(env.idx) && Searched(env, q, d) && Executor.PathOf(env, d) == Some(p);
      if q.filters != NO_FILTER {
        FilteredPass(env, q, d);
      }
      if forall i :: 0 <= i < |env.idx.docs| ==> env.idx.docs[i].IsValid() {
        AllValid(env, d, p);
      }
    }
  }

  lemma AllValid(env: Env, d: DocId, p: Path)
    requires (forall i :: 0 <= i < |env.idx.docs| ==> env.idx.docs[i].IsValid()) && Executor.PathOf(env, d) == Some(p)
    ensures d in ValidIds(env.idx)
  {
    var doc := GetDocument(env.idx, d).value;
    var i :| 0 <= i < |env.idx.docs| && env.idx.docs[i] == doc;
  }

  // --------------------------------------------------------------- the whole runs

  /** The same once a careful run of the watch pipeline has settled. */
  lemma SettledSearchIff(states: seq<WatchPipeline.State>, steps: seq<WatchPipeline.Step>, n: nat,
      cfg: WatchPipeline.Config, env: Env, q: Query, p: Path)
    requires Faithful(cfg.extract) && Sound(cfg.extract)
    requires WatchPipeline.IsRun(states, steps, cfg) && WatchPipeline.Starts(states[0], cfg) && n < |states|
    requires WatchPipeline.Careful(states, steps, n, cfg)
    requires states[0].stripped == {} && WatchSearch.Compactions(steps, n) <= 1 && WatchPipeline.Settled(states[n])
    requires env == EnvOf(WatchSearch.Seen(states[n]), env.engine, env.pathAccepts)
    requires Says(q.root) && HasTexts(q)
    ensures SearchFinds(env, q, p) <==>
            || Reports(WatchSearch.Seen(states[n]), cfg.extract, q, p, env.engine, env.pathAccepts)
            || BuriedFinds(env, q, p)
  {
    hide *;
    WatchSearch.SettledIsCaught(states, steps, n, cfg);
    CaughtSearchIff(WatchSearch.Seen(states[n]), cfg.extract, env, q, p);
  }

  /** And after any sequence of updates from the command line. */
  lemma UpdatedSearchIff(history: seq<FileSystem>, indexes: seq<Index>, calls: seq<Updates.Call>, n: nat,
      extract: Extractor, visible: Build.Visibility, env: Env, q: Query, p: Path)
    requires Faithful(extract) && Build.Agrees(extract, visible)
    requires Updates.IsHistory(history, indexes, calls, extract, visible) && n < |indexes|
    requires Updates.TimesIdentify(history) && Valid(indexes[0]) && Build.Current(indexes[0], history[0], extract, {})
    requires Updates.RejectsTrue(indexes[0], history, 0, extract) && Updates.CompactionsSince(calls, n) <= 1
    requires env == EnvOf(WatchSearch.After(history, indexes, calls, n), env.engine, env.pathAccepts)
    requires Says(q.root) && HasTexts(q)
    ensures SearchFinds(env, q, p) <==>
            || Reports(WatchSearch.After(history, indexes, calls, n), extract, q, p, env.engine, env.pathAccepts)
            || BuriedFinds(env, q, p)
  {
    assert Sound(extract);
    hide *;
    WatchSearch.UpdatedIsCaught(history, indexes, calls, n, extract, visible);
    CaughtSearchIff(WatchSearch.After(history, indexes, calls, n), extract, env, q, p);
  }
}
