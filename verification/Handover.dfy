/**
  From the daemon to the command line: the daemon records modification times in
  nanoseconds (src/server/daemon_core.rs:1241-1245), the scan compares them in
  seconds (src/index/build.rs:697-700, 770-775), so the next scan lists what the
  daemon wrote as modified.
*/
module Handover {
  import opened Prelude
  import opened Index
  import opened SegmentBuilder
  import opened Extraction
  import opened Build
  import opened Watcher
  import opened Daemon
  import opened WatchPipeline

  const NANOS_PER_SECOND := 1_000_000_000

  /** The files as the scan sees them, times being kept in nanoseconds. */
  function InSeconds(fs: FileSystem): FileSystem {
    map p | p in fs :: fs[p].(mtime := fs[p].mtime / NANOS_PER_SECOND)
  }

  /** The daemon's extractor keeps the time as it is. */
  ghost predicate RecordsNanos(extract: Extractor) {
    Sound(extract) && forall p, f :: extract(p, f).Some? ==> extract(p, f).value.mtime == f.mtime
  }

  /** The diff a scan would compute next. */
  ghost predicate NextScan(idx: Index, fs: FileSystem, diff: IndexDiff, indexed: Indexed, visible: Visibility) {
    Lists(idx, indexed) && DiffIs(diff, indexed, RejectedMap(idx), InSeconds(fs), visible)
  }

  lemma Differ(nanos: nat)
    ensures nanos / NANOS_PER_SECOND != nanos <==> nanos != 0
  {
  }

  lemma RecordedTime(fs: FileSystem, extract: Extractor, p: Path)
    requires RecordsNanos(extract)
    ensures Expected(fs, p, extract).Some? <==> ExtractAt(extract, fs, p).Some?
    ensures Expected(fs, p, extract).Some? ==> p in fs && Expected(fs, p, extract).value.mtime == fs[p].mtime
  {
  }

  /**
    After a settled run of the watcher the next scan lists as modified every
    visible indexed file, but those whose time is the epoch itself.
  */
  lemma NextScanRereads(states: seq<State>, steps: seq<Step>, n: nat, cfg: Config, diff: IndexDiff, indexed: Indexed,
      visible: Visibility, p: Path)
    requires RecordsNanos(cfg.extract)
    requires IsRun(states, steps, cfg) && Starts(states[0], cfg) && n < |states| && Settled(states[n])
    requires Careful(states, steps, n, cfg)
    requires NextScan(states[n].index, states[n].fs, diff, indexed, visible)
    ensures p in ModifiedPaths(diff) <==>
            && Visible(visible, InSeconds(states[n].fs), p)
            && ExtractAt(cfg.extract, states[n].fs, p).Some?
            && states[n].fs[p].mtime != 0
  {
    hide *;
    ScanParts(states[n].index, states[n].fs, diff, indexed, visible);
    assert Sound(cfg.extract) by { NanosSound(cfg.extract); }
    CatchesUp(states, steps, n, p, cfg);
    RightLookup(states[n].index, states[n].fs, p, cfg.extract, states[n].stripped);
    ModifiedIff(states[n].index, diff, indexed, InSeconds(states[n].fs), visible, p);
    RecordedTime(states[n].fs, cfg.extract, p);
    SecondsAt(states[n].fs, visible, p);
  }

  lemma ScanParts(idx: Index, fs: FileSystem, diff: IndexDiff, indexed: Indexed, visible: Visibility)
    requires NextScan(idx, fs, diff, indexed, visible)
    ensures Lists(idx, indexed) && DiffIs(diff, indexed, RejectedMap(idx), InSeconds(fs), visible)
  {
  }

  lemma NanosSound(extract: Extractor)
    requires RecordsNanos(extract)
    ensures Sound(extract)
  {
  }

  lemma RightLookup(idx: Index, fs: FileSystem, p: Path, extract: Extractor, gone: set<Trigram>)
    requires Sound(extract) && Right(idx, fs, p, extract, gone)
    ensures Lookup(idx, p) == Expected(fs, p, extract)
  {
  }

  lemma SecondsAt(fs: FileSystem, visible: Visibility, p: Path)
    ensures Visible(visible, InSeconds(fs), p) ==> p in fs && p in InSeconds(fs)
    ensures p in fs ==> p in InSeconds(fs) && (InSeconds(fs)[p].mtime != fs[p].mtime <==> fs[p].mtime != 0)
  {
    if p in fs {
      Differ(fs[p].mtime);
    }
  }

  /**
    The same flush by flush, whatever unit the rest of the index was recorded
    in: of the batch, every indexed file whose time is not the epoch; of the
    others, those whose recorded time is not the scan's.
  */
  lemma FlushedLookModified(idx: Index, b: Batch, base: iset<Path>, fs: FileSystem, extract: Extractor,
                            diff: IndexDiff, indexed: Indexed, visible: Visibility, p: Path)
    requires Valid(idx) && RecordsNanos(extract) && Tidy(b) && Consistent(idx, b, base)
    requires AllWellFormed(ExtractAll(extract, fs, b.created + b.modified))
    requires NextScan(Applied(idx, b, fs, extract), fs, diff, indexed, visible)
    ensures p in ModifiedPaths(diff) <==>
            && Visible(visible, InSeconds(fs), p)
            && (if p in b.created || p in b.modified then ExtractAt(extract, fs, p).Some? && fs[p].mtime != 0
                else p !in b.deleted && Lookup(idx, p).Some? && Lookup(idx, p).value.mtime != InSeconds(fs)[p].mtime)
  {
    assert Visible(visible, InSeconds(fs), p) ==> p in InSeconds(fs);
    hide *;
    assert Sound(extract) by { NanosSound(extract); }
    ScanParts(Applied(idx, b, fs, extract), fs, diff, indexed, visible);
    FlushMeaning(idx, b, base, fs, extract, p);
    ModifiedIff(Applied(idx, b, fs, extract), diff, indexed, InSeconds(fs), visible, p);
    RecordedTime(fs, extract, p);
    SecondsAt(fs, visible, p);
  }
}
