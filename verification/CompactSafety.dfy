/**
  What compaction preserves: the documents are renumbered 1..n in order, every
  path is known exactly as before, every query on tokens and positions finds
  the same paths, and trigrams lose the stop-grams and nothing else. Whether the
  trigrams that are left can be trusted depends on what earlier compactions
  already stripped.
*/
module CompactSafety {
  import opened Prelude
  import opened Index
  import opened Compact

  /** The entry of the compacted table that document `i` became. */
  ghost predicate Became(idx: Index, c: Index, i: nat)
    requires i < |idx.docs| && idx.docs[i].pathId < |idx.paths|
  {
    var k := Rank(idx.docs, i);
    && k < |c.docs| && k < |c.paths|
    && c.docs[k] == MergedDocument(idx.docs[i], k + 1, k)
    && c.paths[k] == idx.paths[idx.docs[i].pathId]
    && 1 in c.segments
    && DataIn(c.segments[1], k + 1) == Recall(idx, idx.docs[i]).data
    && TrigramsIn(c.segments[1], k + 1) == TrigramsOf(idx, idx.docs[i]) - c.stopGrams
  }

  lemma WrittenDoc(merged: Segment, stop: set<Trigram>, e: DocId)
    ensures DataIn(Written(merged, stop), e) == DataIn(merged, e)
    ensures TrigramsIn(Written(merged, stop), e) == TrigramsIn(merged, e) - stop
  {
    SortedKeys(merged.tokens, e);
    SortedKeys(merged.trigrams, e);
    var w := Written(merged, stop);
    hide SortLists;
    assert KeysWith(w.trigrams, e) == KeysWith(SortLists(merged.trigrams), e) - stop;
  }

  lemma WrittenSorted(merged: Segment, stop: set<Trigram>)
    ensures Sorted(Written(merged, stop))
  {
  }

  lemma WrittenMentions(merged: Segment, stop: set<Trigram>, e: DocId)
    requires Mentions(Written(merged, stop), e)
    ensures Mentions(merged, e)
  {
    WrittenDoc(merged, stop, e);
    hide Written, KeysWith, PositionsWith;
  }

  lemma RemapOf(idx: Index, r: Remapping, i: nat)
    requires Valid(idx) && r == RemapFirst(idx.docs, idx.paths, |idx.docs|)
    requires i < |idx.docs| && idx.docs[i].IsValid()
    ensures |r.validDocs| == |r.validPaths| == Rank(idx.docs, |idx.docs|)
    ensures RemapsDoc(idx.docs, idx.paths, r, i)
  {
    RemapsAll(idx.docs, idx.paths, |idx.docs|);
    hide RemapFirst;
  }

  lemma MergedEntry(idx: Index, r: Remapping, merged: Segment, i: nat, e: DocId)
    requires Valid(idx) && i < |idx.docs| && idx.docs[i].IsValid()
    requires MergedUpTo(idx, r, merged, |Active(idx)|) && r.Remap(idx.docs[i].docId) == Some(e)
    ensures DataIn(merged, e) == Recall(idx, idx.docs[i]).data
    ensures TrigramsIn(merged, e) == TrigramsOf(idx, idx.docs[i])
  {
    assert SameDoc(merged, e, Source(idx, idx.docs[i], |Active(idx)|), idx.docs[i].docId);
    assert Active(idx)[..|Active(idx)|] == Active(idx);
    assert SegmentsPresent(idx);
    hide MergedUpTo, DataIn, TrigramsIn;
  }

  lemma BecomesEntry(idx: Index, c: Index, r: Remapping, merged: Segment, i: nat)
    requires Valid(idx) && r == RemapFirst(idx.docs, idx.paths, |idx.docs|) && CompactedBy(idx, c, r, merged)
    requires i < |idx.docs| && idx.docs[i].IsValid()
    ensures Became(idx, c, i)
  {
    hide Valid, RemapFirst, StopGramChoice, Written, MergedUpTo, DataIn, TrigramsIn, Recall, TrigramsOf;
    assert idx.docs[i].pathId < |idx.paths| by { PathInStore(idx, i); }
    RemapOf(idx, r, i);
    var k := Rank(idx.docs, i);
    MergedEntry(idx, r, merged, i, k + 1);
    WrittenDoc(merged, c.stopGrams, k + 1);
  }

  lemma PathInStore(idx: Index, i: nat)
    requires Valid(idx) && i < |idx.docs|
    ensures idx.docs[i].pathId < |idx.paths|
  {
  }

  /** Every rank below the total is some valid document's. */
  lemma {:induction false} RankOnto(docs: seq<Document>, n: nat, k: nat) returns (i: nat)
    requires n <= |docs| && k < Rank(docs, n)
    ensures i < n && docs[i].IsValid() && Rank(docs, i) == k
  {
    if docs[n - 1].IsValid() && Rank(docs, n - 1) == k {
      i := n - 1;
    } else {
      i := RankOnto(docs, n - 1, k);
    }
  }

  lemma TableSizes(idx: Index, c: Index)
    requires Valid(idx) && IsCompaction(idx, c)
    ensures |c.docs| == |c.paths| == Rank(idx.docs, |idx.docs|)
    ensures c.base == Some(1) && c.deltas == [] && c.segments.Keys == {1}
  {
    RemapsAll(idx.docs, idx.paths, |idx.docs|);
    var r := RemapFirst(idx.docs, idx.paths, |idx.docs|);
    hide RemapFirst, Valid;
    var merged :| CompactedBy(idx, c, r, merged);
    hide MergedUpTo, StopGramChoice;
  }

  /** Each valid document has its entry, and each entry its valid document. */
  lemma Renumbers(idx: Index, c: Index, i: nat)
    requires Valid(idx) && IsCompaction(idx, c)
    requires i < |idx.docs| && idx.docs[i].IsValid()
    ensures Became(idx, c, i)
  {
    var r := RemapFirst(idx.docs, idx.paths, |idx.docs|);
    hide RemapFirst, Valid, CompactedBy, Became;
    PathInStore(idx, i);
    var merged :| CompactedBy(idx, c, r, merged);
    BecomesEntry(idx, c, r, merged, i);
  }

  lemma EntryFrom(idx: Index, c: Index, k: nat) returns (i: nat)
    requires Valid(idx) && IsCompaction(idx, c) && k < |c.docs|
    ensures i < |idx.docs| && idx.docs[i].IsValid() && Rank(idx.docs, i) == k
    ensures idx.docs[i].pathId < |idx.paths| && Became(idx, c, i)
  {
    TableSizes(idx, c);
    i := RankOnto(idx.docs, |idx.docs|, k);
    hide IsCompaction, Became, Valid;
    PathInStore(idx, i);
    Renumbers(idx, c, i);
  }

  /** The new numbers keep the old order, without gaps. */
  lemma OrderKept(idx: Index, c: Index, i: nat, j: nat)
    requires Valid(idx) && IsCompaction(idx, c)
    requires i < j < |idx.docs| && idx.docs[i].IsValid() && idx.docs[j].IsValid()
    ensures Rank(idx.docs, i) < Rank(idx.docs, j) < |c.docs|
    ensures c.docs[Rank(idx.docs, i)].docId < c.docs[Rank(idx.docs, j)].docId
  {
    TableSizes(idx, c);
    hide IsCompaction, Valid;
    PathInStore(idx, i);
    PathInStore(idx, j);
    Renumbers(idx, c, i);
    Renumbers(idx, c, j);
    RankGrows(idx.docs, i, j);
    RankGrows(idx.docs, j, |idx.docs|);
  }

  // ---------------------------------------------------------------- validity

  lemma EntryIs(idx: Index, c: Index, k: nat)
    requires Valid(idx) && IsCompaction(idx, c) && k < |c.docs|
    ensures c.docs[k].docId == k + 1 && c.docs[k].pathId == k && c.docs[k].segmentId == 1 && c.docs[k].IsValid()
  {
    hide Valid, IsCompaction, DataIn, TrigramsIn, Recall, TrigramsOf;
    var i := EntryFrom(idx, c, k);
  }

  lemma PathsDiffer(idx: Index, c: Index, k: nat, l: nat)
    requires Valid(idx) && IsCompaction(idx, c) && k < l < |c.paths|
    ensures c.paths[k] != c.paths[l]
  {
    assert OneLive(idx.docs) && Distinct(idx.paths);
    hide Valid, IsCompaction, DataIn, TrigramsIn, Recall, TrigramsOf, OneLive, Distinct;
    TableSizes(idx, c);
    var i := EntryFrom(idx, c, k);
    var j := EntryFrom(idx, c, l);
    DifferentPaths(idx, i, j);
  }

  lemma DifferentPaths(idx: Index, i: nat, j: nat)
    requires OneLive(idx.docs) && Distinct(idx.paths) && PathIdsIn(idx.docs, |idx.paths|)
    requires i < |idx.docs| && j < |idx.docs| && i != j && idx.docs[i].IsValid() && idx.docs[j].IsValid()
    ensures idx.paths[idx.docs[i].pathId] != idx.paths[idx.docs[j].pathId]
  {
    var a, b := if i < j then i else j, if i < j then j else i;
    assert idx.docs[a].pathId != idx.docs[b].pathId;
  }

  lemma CompactedOwns(idx: Index, c: Index, d: DocId)
    requires Valid(idx) && IsCompaction(idx, c) && 1 in c.segments && Mentions(c.segments[1], d)
    ensures Owns(c.docs, d, 1)
  {
    var r := RemapFirst(idx.docs, idx.paths, |idx.docs|);
    hide RemapFirst, Valid, Became;
    var merged :| CompactedBy(idx, c, r, merged);
    WrittenMentions(merged, c.stopGrams, d);
    hide Mentions, Written;
    assert !Unmapped(r, d);
    var o :| r.Remap(o) == Some(d);
    hide CompactedBy, MergedUpTo;
    RemapOnlyValid(idx.docs, idx.paths, |idx.docs|, o);
    var i :| 0 <= i < |idx.docs| && idx.docs[i].docId == o && idx.docs[i].IsValid();
    RemapOf(idx, r, i);
    PathInStore(idx, i);
    TableSizes(idx, c);
    RankGrows(idx.docs, i, |idx.docs|);
    EntryIs(idx, c, Rank(idx.docs, i));
  }

  /** Compaction keeps the whole invariant. */
  lemma CompactionKeepsValid(idx: Index, c: Index)
    requires Valid(idx) && IsCompaction(idx, c)
    ensures Valid(c)
  {
    TableSizes(idx, c);
    CompactedSorted(idx, c);
    hide IsCompaction, Mentions, Owns, Sorted;
    assert AscendingIds(c.docs) && PathIdsIn(c.docs, |c.paths|) && OneLive(c.docs) && SegmentsPresent(c) by {
      hide Valid;
      forall k | 0 <= k < |c.docs|
        ensures c.docs[k].docId == k + 1 && c.docs[k].pathId == k && c.docs[k].segmentId == 1
      {
        EntryIs(idx, c, k);
      }
      assert Active(c) == [1];
    }
    assert Distinct(c.paths) by {
      hide Valid;
      forall k, l | 0 <= k < l < |c.paths|
        ensures c.paths[k] != c.paths[l]
      {
        PathsDiffer(idx, c, k, l);
      }
    }
    assert SegmentsSound(c) by {
      hide Valid;
      assert Active(c) == [1];
      forall d: DocId | Mentions(c.segments[1], d)
        ensures Owns(c.docs, d, 1)
      {
        CompactedOwns(idx, c, d);
      }
    }
    assert SegmentOrder(c) by {
      assert Active(c) == [1];
    }
  }

  lemma CompactedSorted(idx: Index, c: Index)
    requires IsCompaction(idx, c)
    ensures 1 in c.segments && Sorted(c.segments[1])
  {
    var r := RemapFirst(idx.docs, idx.paths, |idx.docs|);
    hide RemapFirst, MergedUpTo, StopGramChoice;
    var merged :| CompactedBy(idx, c, r, merged);
    WrittenSorted(merged, c.stopGrams);
  }

  // ----------------------------------------------------------------- meaning

  lemma LiveEntry(idx: Index, p: Path) returns (i: nat)
    requires LiveDoc(idx, p).Some?
    ensures i < |idx.docs| && idx.docs[i] == LiveDoc(idx, p).value && idx.docs[i].IsValid()
    ensures idx.docs[i].pathId < |idx.paths| && idx.paths[idx.docs[i].pathId] == p
  {
    i :| 0 <= i < |idx.docs| && idx.docs[i] == LiveDoc(idx, p).value;
  }

  lemma LiveInBoth(idx: Index, c: Index, i: nat)
    requires Valid(idx) && Valid(c) && IsCompaction(idx, c) && i < |idx.docs| && idx.docs[i].IsValid()
    ensures idx.docs[i].pathId < |idx.paths|
    ensures var p, k := idx.paths[idx.docs[i].pathId], Rank(idx.docs, i);
            && k < |c.docs|
            && LiveDoc(idx, p) == Some(idx.docs[i]) && LiveDoc(c, p) == Some(c.docs[k])
            && Recall(c, c.docs[k]) == Recall(idx, idx.docs[i])
            && TrigramsOf(c, c.docs[k]) == TrigramsOf(idx, idx.docs[i]) - c.stopGrams
  {
    assert PathIdsIn(idx.docs, |idx.paths|) && Distinct(idx.paths) && OneLive(idx.docs);
    assert PathIdsIn(c.docs, |c.paths|) && Distinct(c.paths) && OneLive(c.docs);
    hide Valid, IsCompaction, DataIn, TrigramsIn, LiveDoc, PathIdsIn, Distinct, OneLive;
    PathInStore(idx, i);
    Renumbers(idx, c, i);
    LiveDocIs(idx, i);
    LiveDocIs(c, Rank(idx.docs, i));
  }

  /** No path is known any differently after compaction, and none appears or disappears. */
  lemma CompactionPreserves(idx: Index, c: Index, p: Path)
    requires Valid(idx) && IsCompaction(idx, c)
    ensures Lookup(c, p) == Lookup(idx, p)
    ensures LiveDoc(c, p).Some? <==> LiveDoc(idx, p).Some?
    ensures LiveDoc(c, p).Some? ==>
            TrigramsOf(c, LiveDoc(c, p).value) == TrigramsOf(idx, LiveDoc(idx, p).value) - c.stopGrams
  {
    CompactionKeepsValid(idx, c);
    hide Valid, IsCompaction, Recall, TrigramsOf, LiveDoc, Became;
    if LiveDoc(idx, p).Some? {
      var i := LiveEntry(idx, p);
      LiveInBoth(idx, c, i);
    } else if LiveDoc(c, p).Some? {
      var k := LiveEntry(c, p);
      var i := EntryFrom(idx, c, k);
      LiveInBoth(idx, c, i);
      EntryIs(idx, c, k);
    }
  }

  // -------------------------------------------------------------- stop-grams

  /** Each trigram a file really has is either declared a stop-gram or in its postings. */
  ghost predicate NonStopComplete(idx: Index, truth: map<Path, set<Trigram>>) {
    forall p, t :: p in truth && LiveDoc(idx, p).Some? && t in truth[p] && t !in idx.stopGrams ==>
      t in TrigramsOf(idx, LiveDoc(idx, p).value)
  }

  /** What earlier compactions took from the files is declared a stop-gram again. */
  ghost predicate StrippedStaysStop(idx: Index, c: Index, truth: map<Path, set<Trigram>>) {
    forall p, t ::
      p in truth && LiveDoc(idx, p).Some? && t in truth[p] && t !in TrigramsOf(idx, LiveDoc(idx, p).value) ==>
      t in c.stopGrams
  }

  /**
    After a compaction the non-stop trigrams can be trusted exactly when
    everything stripped earlier is a stop-gram again.
  */
  lemma CompleteIff(idx: Index, c: Index, truth: map<Path, set<Trigram>>)
    requires Valid(idx) && IsCompaction(idx, c)
    ensures NonStopComplete(c, truth) <==> StrippedStaysStop(idx, c, truth)
  {
    hide Valid, IsCompaction, LiveDoc, TrigramsOf;
    forall p, t | p in truth && t in truth[p]
      ensures LiveDoc(c, p).Some? <==> LiveDoc(idx, p).Some?
      ensures LiveDoc(c, p).Some? ==>
              (t in TrigramsOf(c, LiveDoc(c, p).value) <==>
                t in TrigramsOf(idx, LiveDoc(idx, p).value) && t !in c.stopGrams)
    {
      CompactionPreserves(idx, c, p);
    }
  }

  /** A chosen stop-gram is still in some valid document's postings. */
  lemma StopGramsOccur(idx: Index, c: Index, t: Trigram) returns (i: nat)
    requires Valid(idx) && IsCompaction(idx, c) && t in c.stopGrams
    ensures i < |idx.docs| && idx.docs[i].IsValid() && t in TrigramsOf(idx, idx.docs[i])
  {
    var r := RemapFirst(idx.docs, idx.paths, |idx.docs|);
    hide RemapFirst, Valid;
    var merged :| CompactedBy(idx, c, r, merged);
    var sorted := SortLists(merged.trigrams);
    assert Hot(Frequencies(sorted), |r.validDocs|, t);
    assert sorted[t] != [];
    var e := sorted[t][0];
    assert e in sorted[t] && e in merged.trigrams[t];
    assert t in TrigramsIn(merged, e);
    assert Mentions(merged, e);
    assert !Unmapped(r, e);
    var o :| r.Remap(o) == Some(e);
    RemapOnlyValid(idx.docs, idx.paths, |idx.docs|, o);
    i :| 0 <= i < |idx.docs| && idx.docs[i].docId == o && idx.docs[i].IsValid();
    MergedEntry(idx, r, merged, i, e);
  }

  /**
    The way it goes wrong: a trigram stripped by one compaction and left in no
    postings at all cannot be chosen again, so the next compaction declares it
    usable while the file that contains it is missing from its list.
  */
  lemma SecondCompactionForgets(idx: Index, c: Index, truth: map<Path, set<Trigram>>, p: Path, t: Trigram)
    requires Valid(idx) && IsCompaction(idx, c)
    requires p in truth && LiveDoc(idx, p).Some? && t in truth[p]
    requires forall i :: 0 <= i < |idx.docs| && idx.docs[i].IsValid() ==> t !in TrigramsOf(idx, idx.docs[i])
    ensures t !in c.stopGrams && !NonStopComplete(c, truth)
  {
    CompleteIff(idx, c, truth);
    hide Valid, IsCompaction, TrigramsOf;
    if t in c.stopGrams {
      var i := StopGramsOccur(idx, c, t);
      assert false;
    }
    var j := LiveEntry(idx, p);
    assert t !in TrigramsOf(idx, LiveDoc(idx, p).value);
  }
}
