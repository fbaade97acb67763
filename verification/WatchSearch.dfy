/**
  The components composed: once a run of the watch pipeline has settled, or
  after any sequence of updates, searching the index is reading every file.
*/
module WatchSearch {
  import opened Index
  import opened Extraction
  import opened Processing
  import opened Planner
  import opened Executor
  import opened Search
  import opened Build
  import opened Updates
  import opened DiskSearch
  import Compact
  import WatchPipeline

  // ------------------------------------------------------------ stop-grams in a run

  /** How many of the first `n` steps are compactions since the last rebuild. */
  function Compactions(steps: seq<WatchPipeline.Step>, n: nat): nat
    requires n <= |steps|
  {
    if n == 0 || steps[n - 1].Rebuild? then 0
    else Compactions(steps, n - 1) + if steps[n - 1].CompactTo? then 1 else 0
  }

  lemma FlushKeepsStopGrams(s: WatchPipeline.State, t: WatchPipeline.State, cfg: WatchPipeline.Config)
    requires Sound(cfg.extract) && WatchPipeline.Next(s, WatchPipeline.Flush, t, cfg)
    ensures t.index.stopGrams == s.index.stopGrams && t.stripped == s.stripped
  {
    hide Sound;
  }

  lemma StepStopGrams(s: WatchPipeline.State, step: WatchPipeline.Step, t: WatchPipeline.State,
      cfg: WatchPipeline.Config)
    requires Sound(cfg.extract) && WatchPipeline.Next(s, step, t, cfg)
    ensures step.Rebuild? ==> t.stripped == {}
    ensures step.CompactTo? ==> t.index == step.compacted && t.stripped == s.stripped + t.index.stopGrams
    ensures !step.CompactTo? && !step.Rebuild? ==> t.index.stopGrams == s.index.stopGrams && t.stripped == s.stripped
  {
    if step.Flush? {
      FlushKeepsStopGrams(s, t, cfg);
    }
    hide Sound, Compact.IsCompaction, WatchPipeline.FullyBuilt;
  }

  /** With at most one compaction since the last rebuild, a run strips only what is a stop-gram. */
  lemma {:induction false} StrippedAreStopGrams(states: seq<WatchPipeline.State>, steps: seq<WatchPipeline.Step>,
      n: nat, cfg: WatchPipeline.Config)
    requires Sound(cfg.extract) && WatchPipeline.IsRun(states, steps, cfg) && n < |states| && states[0].stripped == {}
    requires Compactions(steps, n) <= 1
    ensures Compactions(steps, n) == 0 ==> states[n].stripped == {}
    ensures states[n].stripped <= states[n].index.stopGrams
  {
    if n > 0 {
      assert WatchPipeline.Next(states[n - 1], steps[n - 1], states[n], cfg);
      hide WatchPipeline.Next, Sound;
      StepStopGrams(states[n - 1], steps[n - 1], states[n], cfg);
      if !steps[n - 1].Rebuild? {
        StrippedAreStopGrams(states, steps, n - 1, cfg);
      }
    }
  }

  // ---------------------------------------------------------------- the promise

  /** What a state of the pipeline shows to a search. */
  function Seen(s: WatchPipeline.State): Snapshot {
    Snapshot(s.index, s.fs, s.stripped)
  }

  /**
    The one promise the components make together. In every careful run of
    events, debouncing, batches, flushes, rebuilds and at most one compaction
    since the last rebuild, from an index that knows the files with all their
    trigrams: once nothing is pending, a search for a tree of exact phrases and
    regexes reports a path exactly when reading the file there does, unless a
    text there can no longer be indexed.
  */
  lemma SettledSearchIsGrep(states: seq<WatchPipeline.State>, steps: seq<WatchPipeline.Step>, n: nat,
      cfg: WatchPipeline.Config, env: Env, q: Query, p: Path)
    requires Faithful(cfg.extract) && Sound(cfg.extract)
    requires WatchPipeline.IsRun(states, steps, cfg) && WatchPipeline.Starts(states[0], cfg) && n < |states|
    requires WatchPipeline.Careful(states, steps, n, cfg)
    requires states[0].stripped == {} && Compactions(steps, n) <= 1
    requires WatchPipeline.Settled(states[n]) && env == EnvOf(Seen(states[n]), env.engine, env.pathAccepts)
    requires !q.caseInsensitive && Says(q.root)
    requires Serves(Seen(states[n]), cfg.extract, env, q, p)
    requires p in states[n].fs && IsText(states[n].fs[p].content) ==> ExtractAt(cfg.extract, states[n].fs, p).Some?
    ensures SearchFinds(env, q, p) <==> Grep(Seen(states[n]), cfg.extract, q, p, env.engine, env.pathAccepts)
  {
    SeenFiles(states[n]);
    hide *;
    SettledIsCaught(states, steps, n, cfg);
    CaughtSearchIsGrep(Seen(states[n]), cfg.extract, env, q, p);
  }

  lemma SettledIsCaught(states: seq<WatchPipeline.State>, steps: seq<WatchPipeline.Step>, n: nat,
      cfg: WatchPipeline.Config)
    requires Sound(cfg.extract)
    requires WatchPipeline.IsRun(states, steps, cfg) && WatchPipeline.Starts(states[0], cfg) && n < |states|
    requires WatchPipeline.Careful(states, steps, n, cfg)
    requires states[0].stripped == {} && Compactions(steps, n) <= 1 && WatchPipeline.Settled(states[n])
    ensures Caught(Seen(states[n]), cfg.extract)
  {
    hide Sound, Right, Valid, WatchPipeline.IsRun, WatchPipeline.Starts, WatchPipeline.Careful;
    StrippedAreStopGrams(states, steps, n, cfg);
    WatchPipeline.NeverTwoLive(states, steps, n, cfg);
    forall p
      ensures Right(states[n].index, states[n].fs, p, cfg.extract, states[n].stripped)
    {
      WatchPipeline.CatchesUp(states, steps, n, p, cfg);
    }
  }

  lemma SeenFiles(s: WatchPipeline.State)
    ensures Seen(s).fs == s.fs
  {
  }

  /** What the index after `n` updates shows to a search. */
  function After(history: seq<FileSystem>, indexes: seq<Index>, calls: seq<Call>, n: nat): Snapshot
    requires n < |history| && n < |indexes| && n <= |calls|
  {
    Snapshot(indexes[n], history[n], TakenOut(indexes, calls, n, {}))
  }

  /**
    The same after any sequence of updates from the command line in which at
    most one has ended in a compaction since the last full build.
  */
  lemma UpdatedSearchIsGrep(history: seq<FileSystem>, indexes: seq<Index>, calls: seq<Call>, n: nat, extract: Extractor,
                            visible: Visibility, env: Env, q: Query, p: Path)
    requires Faithful(extract) && Agrees(extract, visible)
    requires IsHistory(history, indexes, calls, extract, visible) && n < |indexes| && TimesIdentify(history)
    requires Valid(indexes[0]) && Current(indexes[0], history[0], extract, {})
    requires RejectsTrue(indexes[0], history, 0, extract) && CompactionsSince(calls, n) <= 1
    requires env == EnvOf(After(history, indexes, calls, n), env.engine, env.pathAccepts)
    requires !q.caseInsensitive && Says(q.root)
    requires Serves(After(history, indexes, calls, n), extract, env, q, p)
    requires p in history[n] && IsText(history[n][p].content) ==> ExtractAt(extract, history[n], p).Some?
    ensures SearchFinds(env, q, p) <==>
            Grep(After(history, indexes, calls, n), extract, q, p, env.engine, env.pathAccepts)
  {
    assert Sound(extract);
    var s := After(history, indexes, calls, n);
    hide *;
    UpdatedIsCaught(history, indexes, calls, n, extract, visible);
    SeenAfter(history, indexes, calls, n);
    CaughtSearchIsGrep(s, extract, env, q, p);
  }

  lemma SeenAfter(history: seq<FileSystem>, indexes: seq<Index>, calls: seq<Call>, n: nat)
    requires n < |history| && n < |indexes| && n <= |calls|
    ensures After(history, indexes, calls, n).fs == history[n]
  {
  }

  lemma UpdatedIsCaught(history: seq<FileSystem>, indexes: seq<Index>, calls: seq<Call>, n: nat, extract: Extractor,
      visible: Visibility)
    requires Agrees(extract, visible)
    requires IsHistory(history, indexes, calls, extract, visible) && n < |indexes| && TimesIdentify(history)
    requires Valid(indexes[0]) && Current(indexes[0], history[0], extract, {})
    requires RejectsTrue(indexes[0], history, 0, extract) && CompactionsSince(calls, n) <= 1
    ensures Caught(After(history, indexes, calls, n), extract)
  {
    assert Sound(extract);
    assert After(history, indexes, calls, n) == Snapshot(indexes[n], history[n], TakenOut(indexes, calls, n, {}));
    hide *;
    UpdatesMeetDisk(history, indexes, calls, n, extract, visible, {});
    TakenOutAreStopGrams(history, indexes, calls, n, extract, visible);
    CurrentIsCaught(indexes[n], history[n], extract, TakenOut(indexes, calls, n, {}));
  }

  lemma CurrentIsCaught(idx: Index, fs: FileSystem, extract: Extractor, taken: set<Trigram>)
    requires Sound(extract) && Valid(idx) && Current(idx, fs, extract, taken) && taken <= idx.stopGrams
    ensures Caught(Snapshot(idx, fs, taken), extract)
  {
    hide Valid, Right;
  }
}
