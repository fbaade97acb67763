/**
  Updates from the command line, one after the other, while the files change
  (src/index/build.rs:762-943). The only thing asked of the disk is that a path
  never has two contents under one modification time.
*/
module Updates {
  import opened Index
  import opened SegmentBuilder
  import opened Extraction
  import opened Build
  import opened FullBuild

  /** Whenever a path has the same time it has the same content. */
  ghost predicate TimesIdentify(history: seq<FileSystem>) {
    forall i, j, p ::
      0 <= i < |history| && 0 <= j < |history| && p in history[i]
        && p in history[j] && history[i][p].mtime == history[j][p].mtime
      ==> history[i][p] == history[j][p]
  }

  /** The path was once seen with this time and could not be indexed. */
  ghost predicate OnceRejected(history: seq<FileSystem>, n: nat, extract: Extractor, p: Path, m: nat) {
    exists i :: 0 <= i <= n && i < |history| && p in history[i]
      && history[i][p].mtime == m && extract(p, history[i][p]).None?
  }

  ghost predicate RejectsTrue(idx: Index, history: seq<FileSystem>, n: nat, extract: Extractor) {
    forall p :: p in RejectedMap(idx) ==> OnceRejected(history, n, extract, p, RejectedMap(idx)[p])
  }

  /** One call of the updater: nothing to do, an incremental update that may end in a compaction, or a full build. */
  datatype Call =
    | Scan(diff: IndexDiff, indexed: Indexed, compacts: bool)
    | Rebuild(chunks: seq<seq<ProcessedFile>>, stop: set<Trigram>, rejected: seq<(Path, nat)>)

  ghost predicate Calls(idx: Index, call: Call, fs: FileSystem, u: Index, extract: Extractor, visible: Visibility) {
    match call
    case Scan(diff, indexed, compacts) =>
      && Lists(idx, indexed) && DiffIs(diff, indexed, RejectedMap(idx), fs, visible)
      && AllWellFormed(ExtractAll(extract, fs, ToIndex(diff)))
      && if TotalChanges(diff) == 0 then !compacts && u == idx else UpdatesTo(idx, diff, fs, extract, compacts, u)
    case Rebuild(chunks, stop, rejected) =>
      ChunksHold(chunks, fs, extract) && ListsRejects(rejected, fs, extract)
      && u == Rebased(AfterChunks(chunks, |chunks|), stop, rejected)
  }

  /** Each entry is a file that cannot be indexed, with its time. */
  ghost predicate ListsRejects(rejected: seq<(Path, nat)>, fs: FileSystem, extract: Extractor) {
    forall i :: 0 <= i < |rejected| ==>
      && rejected[i].0 in fs && fs[rejected[i].0].mtime == rejected[i].1
      && extract(rejected[i].0, fs[rejected[i].0]).None?
  }

  /** What a scan that needs no full build does is such a call. */
  lemma UpdateIsCall(idx: Index, fs: FileSystem, extract: Extractor, visible: Visibility, outcome: UpdateOutcome,
      diff: IndexDiff, indexed: Indexed, deltaBaseline: nat) returns (compacts: bool)
    requires Lists(idx, indexed) && DiffIs(diff, indexed, RejectedMap(idx), fs, visible)
    requires AllWellFormed(ExtractAll(extract, fs, ToIndex(diff)))
    requires outcome.UpToDate? <==> TotalChanges(diff) == 0
    requires outcome.Incremental? ==> Leaves(idx, diff, fs, extract, deltaBaseline, outcome.index)
    ensures outcome.UpToDate? ==> Calls(idx, Scan(diff, indexed, compacts), fs, idx, extract, visible)
    ensures outcome.Incremental? ==> Calls(idx, Scan(diff, indexed, compacts), fs, outcome.index, extract, visible)
  {
    hide Lists, DiffIs, Leaves, UpdatesTo;
    compacts := false;
    if outcome.Incremental? {
      LeavesOne(idx, diff, fs, extract, deltaBaseline, outcome.index);
      compacts := !UpdatesTo(idx, diff, fs, extract, false, outcome.index);
    }
  }

  /** One run of the command: a scan, then what it calls for, with the files a full build would collect. */
  method Update(idx: Index, scanned: seq<(Path, nat)>, fs: FileSystem, extract: Extractor, deltaBaseline: nat,
      chunks: seq<seq<ProcessedFile>>, rejected: seq<(Path, nat)>, ghost visible: Visibility)
    returns (u: Index, ghost call: Call)
    requires Valid(idx) && Agrees(extract, visible) && Scans(scanned, fs, visible)
    requires ChunksHold(chunks, fs, extract) && ListsRejects(rejected, fs, extract)
    ensures Calls(idx, call, fs, u, extract, visible)
  {
    hide Valid, Agrees, Scans, Lists, DiffIs, Leaves, ListsRejects, AfterChunks, Rebased;
    var outcome, diff, indexed := UpdateIndex(idx, scanned, fs, extract, deltaBaseline, visible);
    ghost var compacts := UpdateIsCall(idx, fs, extract, visible, outcome, diff, indexed, deltaBaseline);
    call := Scan(diff, indexed, compacts);
    match outcome {
      case UpToDate => u := idx;
      case Incremental(index) => u := index;
      case FullBuild =>
        u := BuildIndex(chunks, rejected);
        call := Rebuild(chunks, u.stopGrams, rejected);
    }
  }

  /** The hypothesis of a single update follows from where the last one left the index. */
  lemma TimesTellNext(idx: Index, history: seq<FileSystem>, n: nat, extract: Extractor, visible: Visibility,
      gone: set<Trigram>)
    requires n + 1 < |history| && TimesIdentify(history) && Agrees(extract, visible)
    requires Current(idx, history[n], extract, gone) && RejectsTrue(idx, history, n, extract)
    ensures TimesTell(idx, history[n + 1], extract, visible, gone)
  {
    var before, fs := history[n], history[n + 1];
    forall p | Visible(visible, fs, p) && Lookup(idx, p).Some? && Lookup(idx, p).value.mtime == fs[p].mtime
      ensures Right(idx, fs, p, extract, gone)
    {
      assert Right(idx, before, p, extract, gone);
      hide Lookup, LiveTrigrams, RejectsTrue, Current;
      SameTimeSameFile(history, n, n + 1, p, extract, visible);
    }
    hide Current, Lookup, Agrees;
    forall p | Visible(visible, fs, p) && StillRejected(RejectedMap(idx), fs, p)
      ensures ExtractAt(extract, fs, p).None?
    {
      var i :| 0 <= i <= n && i < |history| && p in history[i]
        && history[i][p].mtime == fs[p].mtime && extract(p, history[i][p]).None?;
      assert history[i][p] == fs[p];
    }
  }

  lemma SameTimeSameFile(history: seq<FileSystem>, i: nat, j: nat, p: Path, extract: Extractor, visible: Visibility)
    requires i < |history| && j < |history| && TimesIdentify(history) && Agrees(extract, visible)
    requires p in history[j] && Expected(history[i], p, extract).Some?
    requires Expected(history[i], p, extract).value.mtime == history[j][p].mtime
    ensures Expected(history[j], p, extract) == Expected(history[i], p, extract)
    ensures Grams(history[j], p, extract) == Grams(history[i], p, extract)
  {
    assert history[i][p] == history[j][p];
  }

  lemma RejectsNext(idx: Index, call: Call, history: seq<FileSystem>, n: nat, u: Index, extract: Extractor,
      visible: Visibility)
    requires n + 1 < |history| && Calls(idx, call, history[n + 1], u, extract, visible)
    requires RejectsTrue(idx, history, n, extract)
    ensures RejectsTrue(u, history, n + 1, extract)
  {
    var fs := history[n + 1];
    forall p | p in RejectedMap(u)
      ensures OnceRejected(history, n + 1, extract, p, RejectedMap(u)[p])
    {
      var m := RejectedMap(u)[p];
      assert (p, m) in u.rejected;
      hide RejectedMap, ChunksHold, Lists, AllWellFormed, DiffIs, OnceRejected, UpdatesTo, Rejections, AfterChunks,
          ExtractAll;
      match call {
        case Rebuild(chunks, stop, rejected) =>
          var i :| 0 <= i < |rejected| && rejected[i] == (p, m);
          SeenRejected(history, n + 1, extract, p, m);
        case Scan(diff, indexed, compacts) =>
          if TotalChanges(diff) == 0 {
            assert OnceRejected(history, n, extract, p, m);
          } else {
            UpdatedRejects(idx, diff, fs, extract, compacts, u);
            ListedReject(idx, diff, indexed, history, n, extract, visible, p, m);
          }
      }
    }
  }

  /** An entry of the new list was on the old one, or was rejected just now. */
  lemma ListedReject(idx: Index, diff: IndexDiff, indexed: Indexed, history: seq<FileSystem>, n: nat,
      extract: Extractor, visible: Visibility, p: Path, m: nat)
    requires n + 1 < |history| && DiffIs(diff, indexed, RejectedMap(idx), history[n + 1], visible)
    requires RejectsTrue(idx, history, n, extract)
    requires (p, m) in diff.rejectedUnchanged + Rejections(extract, history[n + 1], ToIndex(diff))
    ensures OnceRejected(history, n + 1, extract, p, m)
  {
    var fs := history[n + 1];
    hide RejectedMap;
    if (p, m) in diff.rejectedUnchanged {
      assert OnceRejected(history, n, extract, p, m);
    } else {
      RejectedNow(extract, fs, ToIndex(diff), p, m);
      assert p in fs;
      RejectionsAre(extract, fs, ToIndex(diff), p, m);
      assert history[n + 1] == fs;
    }
  }

  lemma SeenRejected(history: seq<FileSystem>, n: nat, extract: Extractor, p: Path, m: nat)
    requires n < |history| && p in history[n] && history[n][p].mtime == m && extract(p, history[n][p]).None?
    ensures OnceRejected(history, n, extract, p, m)
  {
  }

  lemma {:induction false} RejectedNow(extract: Extractor, fs: FileSystem, paths: seq<Path>, p: Path, m: nat)
    requires (p, m) in Rejections(extract, fs, paths)
    ensures p in paths
    decreases |paths|
  {
    var init := paths[..|paths| - 1];
    assert paths == init + [paths[|paths| - 1]];
    if p != paths[|paths| - 1] {
      RejectedNow(extract, fs, init, p, m);
    }
  }

  /** A sequence of updates, the files changing in any way in between. */
  ghost predicate IsHistory(history: seq<FileSystem>, indexes: seq<Index>, calls: seq<Call>, extract: Extractor,
      visible: Visibility) {
    && |history| == |indexes| == |calls| + 1
    && forall k :: 0 <= k < |calls| ==> Calls(indexes[k], calls[k], history[k + 1], indexes[k + 1], extract, visible)
  }

  /** What compactions have taken out of the postings since the last full build. */
  function TakenOut(indexes: seq<Index>, calls: seq<Call>, n: nat, gone: set<Trigram>): set<Trigram>
    requires n <= |calls| && n < |indexes|
  {
    if n == 0 then gone
    else
      match calls[n - 1]
      case Rebuild(_, _, _) => {}
      case Scan(_, _, compacts) => GoneAfter(TakenOut(indexes, calls, n - 1, gone), compacts, indexes[n])
  }

  lemma CallMeetsDisk(idx: Index, call: Call, fs: FileSystem, u: Index, extract: Extractor, visible: Visibility,
      gone: set<Trigram>)
    requires Valid(idx) && Agrees(extract, visible) && Calls(idx, call, fs, u, extract, visible)
    requires TimesTell(idx, fs, extract, visible, gone)
    ensures Valid(u)
    ensures Current(u, fs, extract, if call.Rebuild? then {} else GoneAfter(gone, call.compacts, u))
  {
    hide Valid, Current, DiffIs, Lists, ChunksHold, UpdatesTo, Rebased, AfterChunks, TimesTell, AllWellFormed, Right;
    match call {
      case Scan(diff, indexed, compacts) =>
        if TotalChanges(diff) == 0 {
          NoChangeIsCurrent(idx, diff, indexed, fs, extract, visible, gone);
        } else {
          UpdateMeetsDisk(idx, diff, indexed, fs, extract, visible, gone, compacts, u);
        }
      case Rebuild(chunks, stop, rejected) =>
        FullBuildMeetsDisk(chunks, stop, rejected, fs, extract);
    }
  }

  /**
    However often the files change and the index is updated, it ends up knowing
    every file as a fresh extraction would, but for the trigrams that
    compactions at the end of updates have taken out since the last full build.
  */
  lemma {:induction false} UpdatesMeetDisk(history: seq<FileSystem>, indexes: seq<Index>, calls: seq<Call>, n: nat,
      extract: Extractor, visible: Visibility, gone: set<Trigram>)
    requires IsHistory(history, indexes, calls, extract, visible) && n < |indexes|
    requires TimesIdentify(history) && Agrees(extract, visible)
    requires Valid(indexes[0]) && Current(indexes[0], history[0], extract, gone)
    requires RejectsTrue(indexes[0], history, 0, extract)
    ensures Valid(indexes[n]) && Current(indexes[n], history[n], extract, TakenOut(indexes, calls, n, gone))
    ensures RejectsTrue(indexes[n], history, n, extract)
  {
    hide Valid, Current, RejectsTrue, Calls, TimesIdentify;
    if n > 0 {
      UpdatesMeetDisk(history, indexes, calls, n - 1, extract, visible, gone);
      var before := TakenOut(indexes, calls, n - 1, gone);
      assert Calls(indexes[n - 1], calls[n - 1], history[n], indexes[n], extract, visible);
      TimesTellNext(indexes[n - 1], history, n - 1, extract, visible, before);
      CallMeetsDisk(indexes[n - 1], calls[n - 1], history[n], indexes[n], extract, visible, before);
      RejectsNext(indexes[n - 1], calls[n - 1], history, n - 1, indexes[n], extract, visible);
    }
  }

  // ---------------------------------------------------- compactions since a build

  function CompactionsSince(calls: seq<Call>, n: nat): nat
    requires n <= |calls|
  {
    if n == 0 then 0
    else
      match calls[n - 1]
      case Rebuild(_, _, _) => 0
      case Scan(_, _, compacts) => CompactionsSince(calls, n - 1) + if compacts then 1 else 0
  }

  lemma CallStopGrams(idx: Index, call: Call, fs: FileSystem, u: Index, extract: Extractor, visible: Visibility)
    requires Calls(idx, call, fs, u, extract, visible) && call.Scan? && !call.compacts
    ensures u.stopGrams == idx.stopGrams
  {
    hide Lists, DiffIs, AllWellFormed, ExtractAll, Rejections, RejectedMap;
  }

  /** With at most one compaction since the last full build, what was taken out is a stop-gram. */
  lemma {:induction false} TakenOutAreStopGrams(history: seq<FileSystem>, indexes: seq<Index>, calls: seq<Call>,
      n: nat, extract: Extractor, visible: Visibility)
    requires IsHistory(history, indexes, calls, extract, visible) && n < |indexes| && CompactionsSince(calls, n) <= 1
    ensures CompactionsSince(calls, n) == 0 ==> TakenOut(indexes, calls, n, {}) == {}
    ensures TakenOut(indexes, calls, n, {}) <= indexes[n].stopGrams
  {
    hide Calls;
    if n > 0 && calls[n - 1].Scan? {
      TakenOutAreStopGrams(history, indexes, calls, n - 1, extract, visible);
      if !calls[n - 1].compacts {
        CallStopGrams(indexes[n - 1], calls[n - 1], history[n], indexes[n], extract, visible);
      }
    }
  }
}
