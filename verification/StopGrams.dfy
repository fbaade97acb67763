/**
  When stop-grams can be trusted across compactions (src/index/compact.rs:100-141,
  588-599, src/index/writer.rs:1083-1110): a compaction takes its stop-grams out
  of the postings, and the next one counts what is left.
*/
module StopGrams {
  import opened Prelude
  import opened Index
  import opened SegmentBuilder
  import opened DeltaWriter
  import opened DeltaSafety
  import opened Additions
  import opened Extraction
  import opened FullBuild
  import Build
  import Compact
  import opened CompactSafety

  // ------------------------------------------------------ counting on the old index

  /** The valid documents whose postings have the trigram, by their place in the table. */
  function Carriers(idx: Index, t: Trigram): set<nat> {
    set i: nat | i < |idx.docs| && idx.docs[i].IsValid() && t in TrigramsOf(idx, idx.docs[i])
  }

  function ValidCount(idx: Index): nat {
    Compact.Rank(idx.docs, |idx.docs|)
  }

  /** Posted for more than half of the valid documents. */
  predicate IsHot(idx: Index, t: Trigram) {
    |Carriers(idx, t)| >= ValidCount(idx) / 2 + 1
  }

  /** All the trigrams a compaction could choose. */
  function HotTrigrams(idx: Index): set<Trigram> {
    set i, t | 0 <= i < |idx.docs| && idx.docs[i].IsValid() && t in TrigramsOf(idx, idx.docs[i]) && IsHot(idx, t) :: t
  }

  lemma HotIff(idx: Index, t: Trigram)
    ensures t in HotTrigrams(idx) <==> IsHot(idx, t)
  {
    hide TrigramsOf, Compact.Rank;
    if IsHot(idx, t) {
      assert Carriers(idx, t) != {};
      var i :| i in Carriers(idx, t);
    }
  }

  /** Mapping a set one to one keeps its size. */
  lemma {:induction false} SameSize(a: set<nat>, b: set<nat>, f: nat -> nat)
    requires forall x, y :: x in a && y in a && f(x) == f(y) ==> x == y
    requires forall y :: y in b <==> exists x :: x in a && f(x) == y
    ensures |a| == |b|
    decreases a
  {
    if a == {} {
      assert b == {};
    } else {
      var x :| x in a;
      assert f(x) in b;
      forall y
        ensures y in b - {f(x)} <==> exists z :: z in a - {x} && f(z) == y
      {
        if y in b - {f(x)} {
          var z :| z in a && f(z) == y;
          assert z in a - {x};
        }
      }
      SameSize(a - {x}, b - {f(x)}, f);
    }
  }

  lemma {:induction false} ListSize(s: seq<nat>)
    requires Distinct(s)
    ensures |s| == |Elements(s)|
    decreases |s|
  {
    if s != [] {
      var init, last := s[..|s| - 1], s[|s| - 1];
      assert last !in init;
      ListSize(init);
      assert Elements(s) == Elements(init) + {last};
    }
  }

  /** Which new numbers a merged list names. */
  lemma MergedNames(idx: Index, r: Compact.Remapping, merged: Segment, t: Trigram, e: DocId)
    requires Valid(idx) && r == Compact.RemapFirst(idx.docs, idx.paths, |idx.docs|)
    requires Compact.MergedUpTo(idx, r, merged, |Active(idx)|)
    ensures t in TrigramsIn(merged, e) <==> exists i :: i in Carriers(idx, t) && Compact.Rank(idx.docs, i) + 1 == e
  {
    hide Valid, Compact.RemapFirst, Compact.MergedUpTo, TrigramsIn, TrigramsOf, DataIn;
    if t in TrigramsIn(merged, e) {
      var i := OwnerOf(idx, r, merged, t, e);
      assert i in Carriers(idx, t);
    }
    if i :| i in Carriers(idx, t) && Compact.Rank(idx.docs, i) + 1 == e {
      PathInStore(idx, i);
      RemapOf(idx, r, i);
      MergedEntry(idx, r, merged, i, e);
    }
  }

  lemma OwnerOf(idx: Index, r: Compact.Remapping, merged: Segment, t: Trigram, e: DocId) returns (i: nat)
    requires Valid(idx) && r == Compact.RemapFirst(idx.docs, idx.paths, |idx.docs|)
    requires Compact.MergedUpTo(idx, r, merged, |Active(idx)|) && t in TrigramsIn(merged, e)
    ensures i < |idx.docs| && idx.docs[i].IsValid() && t in TrigramsOf(idx, idx.docs[i])
    ensures Compact.Rank(idx.docs, i) + 1 == e
  {
    assert Mentions(merged, e);
    assert !Compact.Unmapped(r, e);
    hide Mentions, Compact.MergedUpTo, Compact.RemapFirst, TrigramsIn, TrigramsOf, DataIn, Valid;
    var o :| r.Remap(o) == Some(e);
    Compact.RemapOnlyValid(idx.docs, idx.paths, |idx.docs|, o);
    i :| 0 <= i < |idx.docs| && idx.docs[i].docId == o && idx.docs[i].IsValid();
    PathInStore(idx, i);
    RemapOf(idx, r, i);
    MergedEntry(idx, r, merged, i, e);
  }

  /** The number a compaction gives the document at a place of the table. */
  function NewNumber(docs: seq<Document>): nat -> nat {
    (i: nat) => if i < |docs| then Compact.Rank(docs, i) + 1 else 0
  }

  lemma NumbersDiffer(idx: Index, t: Trigram)
    ensures var number := NewNumber(idx.docs);
            forall i, j :: i in Carriers(idx, t) && j in Carriers(idx, t) && number(i) == number(j) ==> i == j
  {
    var number := NewNumber(idx.docs);
    forall i, j | i in Carriers(idx, t) && j in Carriers(idx, t) && number(i) == number(j)
      ensures i == j
    {
      if i < j {
        Compact.RankGrows(idx.docs, i, j);
      } else {
        Compact.RankGrows(idx.docs, j, i);
      }
    }
  }

  lemma ListedNumber(idx: Index, r: Compact.Remapping, merged: Segment, t: Trigram, e: nat)
    requires Valid(idx) && r == Compact.RemapFirst(idx.docs, idx.paths, |idx.docs|)
    requires Compact.MergedUpTo(idx, r, merged, |Active(idx)|)
    ensures e in Elements(Get(Compact.SortLists(merged.trigrams), t)) <==>
            exists i :: i in Carriers(idx, t) && NewNumber(idx.docs)(i) == e
  {
    InSorted(merged.trigrams, t, e);
    MergedNames(idx, r, merged, t, e);
    hide Compact.MergedUpTo, Compact.RemapFirst, Valid, TrigramsIn, TrigramsOf, Compact.Rank, Compact.SortLists;
    if i :| i in Carriers(idx, t) && NewNumber(idx.docs)(i) == e {
      assert Compact.Rank(idx.docs, i) + 1 == e;
    }
    if i :| i in Carriers(idx, t) && Compact.Rank(idx.docs, i) + 1 == e {
      assert NewNumber(idx.docs)(i) == e;
    }
  }

  /** The merged list of a trigram is as long as it has carriers. */
  lemma CountIs(idx: Index, r: Compact.Remapping, merged: Segment, t: Trigram)
    requires Valid(idx) && r == Compact.RemapFirst(idx.docs, idx.paths, |idx.docs|)
    requires Compact.MergedUpTo(idx, r, merged, |Active(idx)|)
    ensures |Get(Compact.SortLists(merged.trigrams), t)| == |Carriers(idx, t)|
  {
    var list := Get(Compact.SortLists(merged.trigrams), t);
    hide *;
    forall e: nat
      ensures e in Elements(list) <==> exists i :: i in Carriers(idx, t) && NewNumber(idx.docs)(i) == e
    {
      ListedNumber(idx, r, merged, t, e);
    }
    NumbersDiffer(idx, t);
    SortedListDistinct(merged.trigrams, t);
    SameSize(Carriers(idx, t), Elements(list), NewNumber(idx.docs));
    ListSize(list);
  }

  lemma InSorted(m: Postings<Trigram>, t: Trigram, e: DocId)
    ensures e in Elements(Get(Compact.SortLists(m), t)) <==> t in KeysWith(m, e)
  {
    if t in m {
      assert e in SortDedup(m[t]) <==> e in m[t];
    }
  }

  lemma SortedListDistinct(m: Postings<Trigram>, t: Trigram)
    ensures Distinct(Get(Compact.SortLists(m), t))
  {
  }

  /** What a compaction finds hot is what is hot among the valid documents. */
  lemma HotAgrees(idx: Index, r: Compact.Remapping, merged: Segment, t: Trigram)
    requires Valid(idx) && r == Compact.RemapFirst(idx.docs, idx.paths, |idx.docs|)
    requires Compact.MergedUpTo(idx, r, merged, |Active(idx)|)
    ensures Compact.Hot(Compact.Frequencies(Compact.SortLists(merged.trigrams)), ValidCount(idx), t) <==> IsHot(idx, t)
  {
    CountIs(idx, r, merged, t);
    hide Compact.MergedUpTo, Compact.RemapFirst, Valid, Carriers, Compact.SortLists, Compact.Rank;
  }

  lemma ValidDocsCount(idx: Index)
    requires Valid(idx)
    ensures |Compact.RemapFirst(idx.docs, idx.paths, |idx.docs|).validDocs| == ValidCount(idx)
  {
    Compact.RemapsAll(idx.docs, idx.paths, |idx.docs|);
  }

  lemma AllOfThem(a: set<Trigram>, b: set<Trigram>)
    requires a <= b && |a| >= |b|
    ensures a == b
  {
    if a != b {
      var x :| x in b && x !in a;
      assert a <= b - {x};
      Smaller(a, b - {x});
    }
  }

  lemma {:induction false} Smaller(a: set<Trigram>, b: set<Trigram>)
    requires a <= b
    ensures |a| <= |b|
    decreases a
  {
    if a != {} {
      var x :| x in a;
      Smaller(a - {x}, b - {x});
    }
  }

  /** As long as they are not too many, the hot trigrams become the stop-grams. */
  lemma StopGramsAreHot(idx: Index, c: Index)
    requires Valid(idx) && Compact.IsCompaction(idx, c)
    ensures c.stopGrams <= HotTrigrams(idx)
    ensures |HotTrigrams(idx)| <= Compact.MAX_STOP_GRAMS ==> c.stopGrams == HotTrigrams(idx)
  {
    var r := Compact.RemapFirst(idx.docs, idx.paths, |idx.docs|);
    var merged :| Compact.CompactedBy(idx, c, r, merged);
    ValidDocsCount(idx);
    var freq := Compact.Frequencies(Compact.SortLists(merged.trigrams));
    assert Compact.StopGramChoice(c.stopGrams, freq, ValidCount(idx), Compact.MAX_STOP_GRAMS);
    assert Compact.MergedUpTo(idx, r, merged, |Active(idx)|);
    hide *;
    forall t: Trigram
      ensures Compact.Hot(freq, ValidCount(idx), t) <==> t in HotTrigrams(idx)
    {
      HotAgrees(idx, r, merged, t);
      HotIff(idx, t);
    }
    Chosen(c.stopGrams, freq, ValidCount(idx), HotTrigrams(idx));
  }

  lemma Chosen(stop: set<Trigram>, freq: map<Trigram, nat>, count: nat, hot: set<Trigram>)
    requires Compact.StopGramChoice(stop, freq, count, Compact.MAX_STOP_GRAMS)
    requires forall t: Trigram :: Compact.Hot(freq, count, t) <==> t in hot
    ensures stop <= hot
    ensures |hot| <= Compact.MAX_STOP_GRAMS ==> stop == hot
  {
    hide Compact.Hot;
    if |hot| <= Compact.MAX_STOP_GRAMS && |stop| == Compact.MAX_STOP_GRAMS {
      AllOfThem(stop, hot);
    }
  }

  // ---------------------------------------------------------- the exact condition

  /** The file has the trigram, the index lost it. */
  ghost predicate Stripped(idx: Index, truth: map<Path, set<Trigram>>, t: Trigram) {
    exists p :: p in truth && LiveDoc(idx, p).Some? && t in truth[p] && t !in TrigramsOf(idx, LiveDoc(idx, p).value)
  }

  /**
    If the trigrams that are no stop-grams can be trusted after a compaction,
    everything stripped earlier is posted for more than half of the valid
    documents all the same; and with hot trigrams within the cap, only if.
  */
  lemma TrustedIff(idx: Index, c: Index, truth: map<Path, set<Trigram>>)
    requires Valid(idx) && Compact.IsCompaction(idx, c)
    ensures NonStopComplete(c, truth) ==> forall t :: Stripped(idx, truth, t) ==> IsHot(idx, t)
    ensures |HotTrigrams(idx)| <= Compact.MAX_STOP_GRAMS && (forall t :: Stripped(idx, truth, t) ==> IsHot(idx, t)) ==>
            NonStopComplete(c, truth)
  {
    hide Valid, Compact.IsCompaction, LiveDoc, TrigramsOf, HotTrigrams, IsHot, NonStopComplete;
    CompleteIff(idx, c, truth);
    StopGramsAreHot(idx, c);
    forall t: Trigram
      ensures t in HotTrigrams(idx) <==> IsHot(idx, t)
    {
      HotIff(idx, t);
    }
  }

  // ----------------------------------------------------------------- how it fails

  lemma NothingLeft(idx: Index, c: Index, t: Trigram, d: Document)
    requires Valid(idx) && Compact.IsCompaction(idx, c) && t in c.stopGrams
    ensures t !in TrigramsOf(c, d)
  {
    var r := Compact.RemapFirst(idx.docs, idx.paths, |idx.docs|);
    hide Compact.RemapFirst, Valid, Compact.MergedUpTo, Compact.StopGramChoice;
    var merged :| Compact.CompactedBy(idx, c, r, merged);
    hide Compact.SortLists;
  }

  /**
    A compaction strips a trigram, an update adds files that do not have it, and
    the next compaction, finding it in no postings, declares it usable: a file
    that has it and was there all along is missing from its list.
  */
  lemma StrippedThenForgotten(idx: Index, c: Index, gone: seq<Path>, files: seq<ProcessedFile>, again: Index,
      truth: map<Path, set<Trigram>>, p: Path, t: Trigram)
    requires Valid(idx) && Compact.IsCompaction(idx, c) && t in c.stopGrams
    requires AllWellFormed(files) && DistinctPaths(files) && BuriesWhatItAdds(c, gone, files)
    requires forall j :: 0 <= j < |files| ==> t !in files[j].trigrams
    requires Compact.IsCompaction(Updated(c, gone, files), again)
    requires p in truth && t in truth[p] && LiveDoc(Updated(c, gone, files), p).Some?
    ensures !NonStopComplete(again, truth)
  {
    CompactionKeepsValid(idx, c);
    var u := Updated(c, gone, files);
    DeltaKeepsValid(c, gone, files);
    hide Valid, Updated, Compact.IsCompaction, TrigramsOf, AllWellFormed, DistinctPaths, BuriesWhatItAdds, LiveDoc,
        NonStopComplete;
    forall k | 0 <= k < |u.docs| && u.docs[k].IsValid()
      ensures t !in TrigramsOf(u, u.docs[k])
    {
      UpdatedTrigrams(c, gone, files, k);
      if k < |c.docs| {
        NothingLeft(idx, c, t, c.docs[k]);
      }
    }
    SecondCompactionForgets(u, again, truth, p, t);
  }

  // -------------------------------------------------------- the failing run itself

  /** Several files with one and the same trigram, in two chunks at least. */
  ghost predicate Shared(chunks: seq<seq<ProcessedFile>>, t: Trigram) {
    && ChunksOk(chunks) && |chunks| >= 2 && chunks[0] != [] && chunks[1] != []
    && forall f :: f in Flat(chunks, |chunks|) ==> f.trigrams == [t]
  }

  lemma {:induction false} NewAreValid(paths: seq<Path>, first: DocId, s: SegmentId, files: seq<ProcessedFile>, n: nat)
    requires n <= |files|
    ensures var docs := NewDocs(paths, first, s, files, n);
            |docs| == n && forall i :: 0 <= i < n ==> docs[i].IsValid()
  {
    if n > 0 {
      NewAreValid(paths, first, s, files, n - 1);
    }
  }

  /** A full build has one valid document a file, and a segment a chunk that has any. */
  lemma {:induction false} BuiltTable(chunks: seq<seq<ProcessedFile>>, n: nat)
    requires n <= |chunks| && ChunksOk(chunks)
    ensures var u := AfterChunks(chunks, n);
            && |u.docs| == |Flat(chunks, n)| && (forall i :: 0 <= i < |u.docs| ==> u.docs[i].IsValid())
            && |u.deltas| >= (if n >= 1 && chunks[0] != [] then 1 else 0) + if n >= 2 && chunks[1] != [] then 1 else 0
  {
    hide *;
    if n == 0 {
      BuiltNothing(chunks);
    } else {
      BuiltTable(chunks, n - 1);
      BuiltNext(chunks, n);
      DeltaAdds(AfterChunks(chunks, n - 1), n, chunks[n - 1]);
      FlatNext(chunks, n);
    }
  }

  lemma BuiltNothing(chunks: seq<seq<ProcessedFile>>)
    requires ChunksOk(chunks)
    ensures AfterChunks(chunks, 0).docs == [] && AfterChunks(chunks, 0).deltas == [] && Flat(chunks, 0) == []
  {
  }

  lemma FlatNext(chunks: seq<seq<ProcessedFile>>, n: nat)
    requires 0 < n <= |chunks|
    ensures |Flat(chunks, n)| == |Flat(chunks, n - 1)| + |chunks[n - 1]|
  {
  }

  lemma DeltaAdds(u: Index, n: SegmentId, files: seq<ProcessedFile>)
    requires AllWellFormed(files) && forall i :: 0 <= i < |u.docs| ==> u.docs[i].IsValid()
    ensures var v := ApplyDelta(u, n, [], files);
            && |v.docs| == |u.docs| + |files| && (forall i :: 0 <= i < |v.docs| ==> v.docs[i].IsValid())
            && |v.deltas| == |u.deltas| + if files != [] then 1 else 0
  {
    NewAreValid(u.paths, MaxId(u.docs) + 1, n, files, |files|);
    assert Bury(u.docs, []) == u.docs;
    hide NewDocs, MaxId, BuildSegment, AllWellFormed, PathsAfter, Bury;
  }

  lemma BuiltNext(chunks: seq<seq<ProcessedFile>>, n: nat)
    requires 0 < n <= |chunks| && ChunksOk(chunks)
    ensures AllWellFormed(chunks[n - 1])
    ensures AfterChunks(chunks, n) == ApplyDelta(AfterChunks(chunks, n - 1), n, [], chunks[n - 1])
  {
  }

  lemma {:induction false} RankOfValid(docs: seq<Document>, n: nat)
    requires n <= |docs| && forall i :: 0 <= i < |docs| ==> docs[i].IsValid()
    ensures Compact.Rank(docs, n) == n
  {
    if n > 0 {
      RankOfValid(docs, n - 1);
    }
  }

  /** Every document of the build has the one trigram. */
  lemma BuiltTrigrams(idx: Index, chunks: seq<seq<ProcessedFile>>, t: Trigram, fs: FileSystem, extract: Extractor,
      i: nat)
    requires Valid(idx) && Sound(extract) && ChunksHold(chunks, fs, extract) && Shared(chunks, t)
    requires Build.Current(idx, fs, extract, {}) && i < |idx.docs| && idx.docs[i].IsValid()
    ensures TrigramsOf(idx, idx.docs[i]) == {t}
  {
    LiveDocIs(idx, i);
    var p := idx.paths[idx.docs[i].pathId];
    assert Right(idx, fs, p, extract, {});
    var f := ExtractAt(extract, fs, p).value;
    assert f in Flat(chunks, |chunks|) && f.trigrams == [t];
  }

  /** The shared trigram is the one hot trigram. */
  lemma SharedIsHot(idx: Index, t: Trigram)
    requires idx.docs != [] && forall i :: 0 <= i < |idx.docs| ==>
             idx.docs[i].IsValid() && TrigramsOf(idx, idx.docs[i]) == {t}
    ensures HotTrigrams(idx) == {t} && |HotTrigrams(idx)| <= Compact.MAX_STOP_GRAMS
  {
    hide TrigramsOf;
    RankOfValid(idx.docs, |idx.docs|);
    CountUpTo(|idx.docs|);
    assert Carriers(idx, t) == UpTo(|idx.docs|);
    HotIff(idx, t);
  }

  function UpTo(n: nat): set<nat> {
    if n == 0 then {} else UpTo(n - 1) + {n - 1}
  }

  lemma {:induction false} CountUpTo(n: nat)
    ensures |UpTo(n)| == n && forall i: nat :: i in UpTo(n) <==> i < n
  {
    if n > 0 {
      CountUpTo(n - 1);
    }
  }

  /** The index a build leaves. */
  function Built(chunks: seq<seq<ProcessedFile>>, stop: set<Trigram>): Index
    requires ChunksOk(chunks)
  {
    Rebased(AfterChunks(chunks, |chunks|), stop, [])
  }

  lemma FirstRun(chunks: seq<seq<ProcessedFile>>, stop: set<Trigram>, t: Trigram, fs: FileSystem, extract: Extractor)
    requires Sound(extract) && ChunksHold(chunks, fs, extract) && Shared(chunks, t)
    ensures var idx := Built(chunks, stop);
            && Valid(idx) && !Compact.NothingToMerge(idx) && ValidCount(idx) == |Flat(chunks, |chunks|)|
            && (forall c :: Compact.IsCompaction(idx, c) ==> t in c.stopGrams)
            && (forall p :: LiveDoc(idx, p).Some? <==> ExtractAt(extract, fs, p).Some?)
  {
    var idx, files := Built(chunks, stop), Flat(chunks, |chunks|);
    BuiltTable(chunks, |chunks|);
    FullBuildMeetsDisk(chunks, stop, [], fs, extract);
    assert |Active(idx)| >= 2 && idx.docs == AfterChunks(chunks, |chunks|).docs by { hide AfterChunks; }
    hide AfterChunks, Built, Rebased, Valid;
    SomeFile(chunks);
    RankOfValid(idx.docs, |idx.docs|);
    forall i | 0 <= i < |idx.docs|
      ensures TrigramsOf(idx, idx.docs[i]) == {t}
    {
      BuiltTrigrams(idx, chunks, t, fs, extract, i);
    }
    SharedIsHot(idx, t);
    forall c | Compact.IsCompaction(idx, c)
      ensures t in c.stopGrams
    {
      hide Compact.IsCompaction;
      StopGramsAreHot(idx, c);
    }
    forall p
      ensures LiveDoc(idx, p).Some? <==> ExtractAt(extract, fs, p).Some?
    {
      assert Right(idx, fs, p, extract, {});
      KnownIffLive(idx, p);
      hide Lookup, LiveTrigrams, Grams, LiveDoc;
    }
  }

  lemma {:induction false} FlatGrows(chunks: seq<seq<ProcessedFile>>, k: nat, n: nat)
    requires k <= n <= |chunks|
    ensures |Flat(chunks, k)| <= |Flat(chunks, n)|
  {
    if k < n {
      FlatGrows(chunks, k, n - 1);
    }
  }

  lemma SomeFile(chunks: seq<seq<ProcessedFile>>)
    requires |chunks| >= 1 && chunks[0] != []
    ensures Flat(chunks, |chunks|) != []
  {
    FlatGrows(chunks, 1, |chunks|);
    assert Flat(chunks, 0) == [] && Flat(chunks, 1) == Flat(chunks, 0) + chunks[0];
  }

  /** After the first compaction a file without the trigram is added: few enough changes for an update. */
  lemma SecondRun(chunks: seq<seq<ProcessedFile>>, stop: set<Trigram>, t: Trigram, fs: FileSystem, extract: Extractor,
      h: ProcessedFile, first: Index)
    requires Sound(extract) && ChunksHold(chunks, fs, extract) && Shared(chunks, t) && |Flat(chunks, |chunks|)| >= 4
    requires WellFormedFile(h) && h.relPath !in fs && Compact.IsCompaction(Built(chunks, stop), first)
    ensures Valid(first) && AllWellFormed([h]) && DistinctPaths([h]) && BuriesWhatItAdds(first, [], [h])
    ensures first.docs != [] && 100 / |first.docs| <= Build.INCREMENTAL_THRESHOLD_PERCENT
    ensures Valid(Updated(first, [], [h])) && !Compact.NothingToMerge(Updated(first, [], [h]))
    ensures forall p :: ExtractAt(extract, fs, p).Some? ==> LiveDoc(Updated(first, [], [h]), p).Some?
  {
    var idx := Built(chunks, stop);
    assert AllWellFormed([h]);
    assert ExtractAt(extract, fs, h.relPath).None?;
    hide *;
    FirstRun(chunks, stop, t, fs, extract);
    CompactionKeepsValid(idx, first);
    TableSizes(idx, first);
    FewPercent(|first.docs|);
    assert |first.docs| >= 4 by { CountsValid(idx); }
    CompactionPreserves(idx, first, h.relPath);
    OneMoreFile(first, h);
    OneMoreSegment(first, h);
    var u := Updated(first, [], [h]);
    TwoActive(u);
    SeveralSegments(u);
    forall p | ExtractAt(extract, fs, p).Some?
      ensures LiveDoc(u, p).Some?
    {
      CompactionPreserves(idx, first, p);
    }
  }

  lemma TwoActive(idx: Index)
    ensures |Active(idx)| == |idx.deltas| + if idx.base.Some? then 1 else 0
  {
  }

  lemma CountsValid(idx: Index)
    ensures ValidCount(idx) == Compact.Rank(idx.docs, |idx.docs|)
  {
  }

  lemma FewPercent(n: nat)
    ensures n >= 4 ==> 100 / n <= Build.INCREMENTAL_THRESHOLD_PERCENT
  {
  }

  lemma RunFails(chunks: seq<seq<ProcessedFile>>, stop: set<Trigram>, t: Trigram, fs: FileSystem, extract: Extractor,
      h: ProcessedFile, p: Path, first: Index, again: Index)
    requires Sound(extract) && ChunksHold(chunks, fs, extract) && Shared(chunks, t) && |Flat(chunks, |chunks|)| >= 4
    requires WellFormedFile(h) && h.relPath !in fs && t !in h.trigrams && ExtractAt(extract, fs, p).Some?
    requires Compact.IsCompaction(Built(chunks, stop), first) && AllWellFormed([h])
    requires Compact.IsCompaction(Updated(first, [], [h]), again)
    ensures t in first.stopGrams
    ensures NonStopComplete(first, map[p := {t}]) && !NonStopComplete(again, map[p := {t}])
  {
    hide *;
    OkChunks(chunks, fs, extract);
    FirstRun(chunks, stop, t, fs, extract);
    SecondRun(chunks, stop, t, fs, extract, h, first);
    FirstComplete(Built(chunks, stop), first, map[p := {t}]);
    StrippedThenForgotten(Built(chunks, stop), first, [], [h], again, map[p := {t}], p, t);
  }

  /**
    The run: a full build of at least four files that share a trigram, a
    compaction, a file without it added by an update, and a second compaction,
    which declares the trigram usable although no list has it any more.
  */
  method ForgottenRun(chunks: seq<seq<ProcessedFile>>, t: Trigram, fs: FileSystem, extract: Extractor, h: ProcessedFile,
      p: Path)
    returns (built: Index, first: Index, again: Index)
    requires Sound(extract) && ChunksHold(chunks, fs, extract) && Shared(chunks, t) && |Flat(chunks, |chunks|)| >= 4
    requires WellFormedFile(h) && h.relPath !in fs && t !in h.trigrams && ExtractAt(extract, fs, p).Some?
    ensures built == Built(chunks, built.stopGrams) && Valid(built) && Compact.IsCompaction(built, first)
    ensures first.docs != [] && 100 / |first.docs| <= Build.INCREMENTAL_THRESHOLD_PERCENT
    ensures AllWellFormed([h]) && Compact.IsCompaction(Updated(first, [], [h]), again)
    ensures t in first.stopGrams && t !in again.stopGrams
    ensures NonStopComplete(first, map[p := {t}]) && !NonStopComplete(again, map[p := {t}])
  {
    hide *;
    OkChunks(chunks, fs, extract);
    built := BuildIndex(chunks, []);
    ghost var stop := built.stopGrams;
    IsBuilt(chunks, stop);
    FirstRun(chunks, stop, t, fs, extract);
    first := Compact.MergeSegments(built);
    SecondRun(chunks, stop, t, fs, extract, h, first);
    again := Compact.MergeSegments(Updated(first, [], [h]));
    RunFails(chunks, stop, t, fs, extract, h, p, first, again);
    NotAgain(t, p, again);
  }

  lemma OkChunks(chunks: seq<seq<ProcessedFile>>, fs: FileSystem, extract: Extractor)
    requires ChunksHold(chunks, fs, extract)
    ensures ChunksOk(chunks)
  {
  }

  lemma IsBuilt(chunks: seq<seq<ProcessedFile>>, stop: set<Trigram>)
    requires ChunksOk(chunks)
    ensures Built(chunks, stop) == Rebased(AfterChunks(chunks, |chunks|), stop, [])
  {
  }

  /** The trigram is lost to the second compaction's lists, so it is not among its stop-grams. */
  lemma NotAgain(t: Trigram, p: Path, again: Index)
    requires !NonStopComplete(again, map[p := {t}])
    ensures t !in again.stopGrams
  {
    hide LiveDoc, TrigramsOf;
  }

  lemma SeveralSegments(idx: Index)
    requires |Active(idx)| >= 2
    ensures !Compact.NothingToMerge(idx)
  {
  }

  lemma FirstComplete(idx: Index, c: Index, truth: map<Path, set<Trigram>>)
    requires Valid(idx) && Compact.IsCompaction(idx, c)
    requires forall p :: p in truth && LiveDoc(idx, p).Some? ==> truth[p] <= c.stopGrams
    ensures NonStopComplete(c, truth)
  {
    hide Valid, Compact.IsCompaction, TrigramsOf;
    forall p | p in truth && LiveDoc(c, p).Some?
      ensures truth[p] <= c.stopGrams
    {
      CompactionPreserves(idx, c, p);
    }
  }
}
