/**
  How the daemon turns batches into index updates (src/server/daemon_core.rs:
  269-334, 337-474): batches pile up per root until they are flushed, and a
  flush reads the files as they are then.
*/
module Daemon {
  import opened Prelude
  import opened Index
  import opened SegmentBuilder
  import opened DeltaWriter
  import opened DeltaSafety
  import opened Extraction
  import opened Watcher

  /** The index after a batch has been applied. */
  function Applied(idx: Index, b: Batch, fs: FileSystem, extract: Extractor): Index
    requires AllWellFormed(ExtractAll(extract, fs, b.created + b.modified))
  {
    Updated(idx, b.deleted + b.modified, ExtractAll(extract, fs, b.created + b.modified))
  }

  datatype Outcome = Dropped | Rebuild | Incremental(index: Index)

  class IndexServer {
    var pendingChanges: map<Path, Batch>
    const rebuildThresholdPercent: nat

    constructor (threshold: nat)
      ensures pendingChanges == map[] && rebuildThresholdPercent == threshold
    {
      pendingChanges := map[];
      rebuildThresholdPercent := threshold;
    }

    method AccumulateChanges(root: Path, batch: Batch)
      modifies this
      ensures batch == EMPTY_BATCH ==> pendingChanges == old(pendingChanges)
      ensures batch != EMPTY_BATCH && root !in old(pendingChanges) ==>
              pendingChanges == old(pendingChanges)[root := batch]
      ensures batch != EMPTY_BATCH && root in old(pendingChanges) ==>
              pendingChanges == old(pendingChanges)[root := MergeBatches(old(pendingChanges)[root], batch)]
    {
      if batch == EMPTY_BATCH {
        return;
      }
      if root in pendingChanges {
        pendingChanges := pendingChanges[root := MergeBatches(pendingChanges[root], batch)];
      } else {
        pendingChanges := pendingChanges[root := batch];
      }
    }

    /** Takes the root's batch out, if there is one worth handling. */
    method FlushPendingChanges(root: Path) returns (batch: Option<Batch>)
      modifies this
      ensures pendingChanges == old(pendingChanges) - {root}
      ensures batch == if root in old(pendingChanges) && old(pendingChanges)[root] != EMPTY_BATCH
                       then Some(old(pendingChanges)[root]) else None
    {
      batch := None;
      if root in pendingChanges {
        if pendingChanges[root] != EMPTY_BATCH {
          batch := Some(pendingChanges[root]);
        }
      }
      pendingChanges := pendingChanges - {root};
    }

    /**
      A batch is dropped by an index without documents, and asks for a rebuild
      when the changes are more than the allowed share of the documents.
    */
    method HandleChanges(idx: Index, batch: Batch, fs: FileSystem, extract: Extractor) returns (outcome: Outcome)
      requires Valid(idx) && Sound(extract)
      ensures var changes := |batch.created| + |batch.modified| + |batch.deleted|;
              && (outcome.Dropped? <==> changes == 0 || |idx.docs| == 0)
              && (outcome.Rebuild? <==>
                   changes * 100 >= (rebuildThresholdPercent + 1) * |idx.docs| && changes > 0 && |idx.docs| > 0)
              && (outcome.Rebuild? <==> Rebuilds(idx, batch, rebuildThresholdPercent))
      ensures AllWellFormed(ExtractAll(extract, fs, batch.created + batch.modified))
      ensures outcome.Incremental? ==> outcome.index == Applied(idx, batch, fs, extract)
    {
      hide Applied, Valid, Sound;
      ExtractedFiles(extract, fs, batch.created + batch.modified);
      var total := |batch.created| + |batch.modified| + |batch.deleted|;
      var docCount := |idx.docs|;
      if total == 0 || docCount == 0 {
        return Dropped;
      }
      var changePercent := total * 100 / docCount;
      PercentAbove(total * 100, docCount, rebuildThresholdPercent);
      if changePercent > rebuildThresholdPercent {
        return Rebuild;
      }
      var updated := ApplyIncrementalUpdate(idx, batch, fs, extract);
      outcome := Incremental(updated);
    }
  }

  function Changes(b: Batch): nat {
    |b.created| + |b.modified| + |b.deleted|
  }

  /** Nothing comes of the batch. */
  predicate Drops(idx: Index, b: Batch) {
    Changes(b) == 0 || idx.docs == []
  }

  /** The changes, in percent of the documents, are beyond the threshold. */
  predicate Rebuilds(idx: Index, b: Batch, threshold: nat) {
    !Drops(idx, b) && Changes(b) * 100 >= (threshold + 1) * |idx.docs|
  }

  lemma PercentAbove(n: nat, count: nat, threshold: nat)
    requires count > 0
    ensures n / count > threshold <==> n >= (threshold + 1) * count
  {
    var q := n / count;
    assert n == q * count + n % count;
    if q > threshold {
      Grows(threshold + 1, q, count);
    } else {
      Grows(q + 1, threshold + 1, count);
    }
  }

  method AddFiles(writer: DeltaSegmentWriter, paths: seq<Path>, fs: FileSystem, extract: Extractor)
    requires writer.Valid() && writer.files == [] && Sound(extract)
    modifies writer`pathToId, writer`newPaths, writer`nextPathId, writer`nextDocId, writer`newDocuments,
        writer`segment, writer`files
    ensures writer.Valid() && writer.files == ExtractAll(extract, fs, paths)
  {
    hide DeltaSegmentWriter.Valid, WellFormedFile;
    var j := 0;
    while j < |paths|
      invariant 0 <= j <= |paths| && writer.Valid() && writer.files == ExtractAll(extract, fs, paths[..j])
    {
      assert paths[..j + 1][..j] == paths[..j];
      var processed := ExtractAt(extract, fs, paths[j]);
      if processed.Some? {
        writer.AddFile(processed.value);
      }
      j := j + 1;
    }
    assert paths[..j] == paths;
  }

  /** The delta of a batch; Compact.CompactIfFragmented comes after it. */
  method ApplyIncrementalUpdate(idx: Index, batch: Batch, fs: FileSystem, extract: Extractor) returns (updated: Index)
    requires Valid(idx) && Sound(extract)
    ensures AllWellFormed(ExtractAll(extract, fs, batch.created + batch.modified))
    ensures updated == Applied(idx, batch, fs, extract)
  {
    hide Valid, DeltaSegmentWriter.Valid, DeadForAll, ExtractAll, Sound;
    ValidParts(idx);
    ExtractedFiles(extract, fs, batch.created + batch.modified);
    var writer := new DeltaSegmentWriter(idx, NextSegmentId(idx));
    MarkTombstones(writer, batch.deleted + batch.modified);
    AddFiles(writer, batch.created + batch.modified, fs, extract);
    updated := writer.Finalize(idx);
  }
}
