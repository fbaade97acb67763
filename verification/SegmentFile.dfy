/**
  Segments as bytes: the dictionaries and postings files that the two writers
  produce (src/index/segment_io.rs:24-157, src/index/writer.rs:387-612) and the
  reader decodes (src/index/reader.rs:169-253, 913-1024).
*/
module SegmentFile {
  import opened Prelude
  import opened Sorting
  import opened Index
  import opened Encoding
  import opened Bytes
  import opened Grouping
  import opened FlatWriter

  // ------------------------------------------------------------- posting lists

  predicate InU32(s: seq<nat>) {
    forall i :: 0 <= i < |s| ==> s[i] <= U32_MAX
  }

  /** A list the delta codec takes as it is. */
  predicate Storable(docs: seq<DocId>) {
    InU32(docs) && SortedFrom(0, docs)
  }

  function PostingBytes(docs: seq<DocId>): seq<Byte>
    requires Storable(docs)
  {
    EncodeDeltas(docs, 0)
  }

  lemma PostingsDecode(docs: seq<DocId>, b: seq<Byte>)
    requires Storable(docs) && b == PostingBytes(docs)
    ensures DecodeDeltas(b, 0, 0) == docs
  {
    DeltaRoundTrip(docs, 0, b, 0);
  }

  lemma {:induction false} AscendingStorable(docs: seq<DocId>, prev: U32)
    requires InU32(docs) && Ascending(docs) && (docs != [] ==> prev <= docs[0])
    ensures SortedFrom(prev, docs)
    decreases |docs|
  {
    if docs != [] {
      AscendingStorable(docs[1..], docs[0]);
    }
  }

  /** What is stored of a list: itself if sorted, otherwise its elements sorted once each. */
  function Canonical(docs: seq<DocId>): (r: seq<DocId>)
    requires InU32(docs)
    ensures Storable(r) && forall d :: d in r <==> d in docs
  {
    if SortedFrom(0, docs) then docs
    else
      var r := SortDedup(docs);
      assert forall i :: 0 <= i < |r| ==> r[i] in docs;
      AscendingStorable(r, 0);
      r
  }

  method EncodePostings(docIds: seq<DocId>) returns (encoded: seq<Byte>, docFreq: nat)
    requires InU32(docIds)
    ensures encoded == PostingBytes(Canonical(docIds)) && docFreq == |Canonical(docIds)|
  {
    if SortedFrom(0, docIds) {
      encoded := DeltaEncode(docIds, []);
      docFreq := |docIds|;
    } else {
      var sorted := SortDedup(docIds);
      assert sorted == Canonical(docIds);
      encoded := DeltaEncode(sorted, []);
      docFreq := |sorted|;
    }
  }

  // ------------------------------------------------------------ trigram records

  datatype TrigramEntry = TrigramEntry(trigram: nat, offset: nat, length: nat, docFreq: nat)

  function TrigramRecord(e: TrigramEntry): (b: seq<Byte>)
    ensures |b| == 20
  {
    LittleEndian(e.trigram, 4) + LittleEndian(e.offset, 8) + LittleEndian(e.length, 4) + LittleEndian(e.docFreq, 4)
  }

  function TrigramRecords(entries: seq<TrigramEntry>): seq<Byte> {
    if entries == [] then [] else TrigramRecord(entries[0]) + TrigramRecords(entries[1..])
  }

  predicate TrigramEntryFits(e: TrigramEntry) {
    e.trigram < Pow256(4) && e.offset < Pow256(8) && e.length < Pow256(4) && e.docFreq < Pow256(4)
  }

  function ReadTrigramRecord(b: seq<Byte>, pos: nat): Option<TrigramEntry> {
    if pos + 20 <= |b|
    then Some(TrigramEntry(NumberAt(b, pos, 4), NumberAt(b, pos + 4, 8),
                           NumberAt(b, pos + 12, 4), NumberAt(b, pos + 16, 4)))
    else None
  }

  function ReadTrigramRecords(b: seq<Byte>, pos: nat, count: nat): Option<seq<TrigramEntry>>
    decreases count
  {
    if count == 0 then Some([])
    else
      match ReadTrigramRecord(b, pos)
      case None => None
      case Some(e) =>
        match ReadTrigramRecords(b, pos + 20, count - 1)
        case None => None
        case Some(rest) => Some([e] + rest)
  }

  /** The dictionary a file holds; None if it is cut short. */
  function ParseTrigramDict(b: seq<Byte>): Option<seq<TrigramEntry>> {
    if |b| < 4 then None else ReadTrigramRecords(b, 4, NumberAt(b, 0, 4))
  }

  lemma TrigramRecordHeld(e: TrigramEntry, b: seq<Byte>, pos: nat)
    requires TrigramEntryFits(e) && Holds(b, pos, TrigramRecord(e))
    ensures ReadTrigramRecord(b, pos) == Some(e)
  {
    var w, x, y, z :=
      LittleEndian(e.trigram, 4), LittleEndian(e.offset, 8), LittleEndian(e.length, 4), LittleEndian(e.docFreq, 4);
    hide Holds, LittleEndian, NumberAt, Pow256;
    HoldsParts(b, pos, w + x + y, z);
    HoldsParts(b, pos, w + x, y);
    HoldsParts(b, pos, w, x);
    NumberHeld(b, pos, e.trigram, 4);
    NumberHeld(b, pos + 4, e.offset, 8);
    NumberHeld(b, pos + 12, e.length, 4);
    NumberHeld(b, pos + 16, e.docFreq, 4);
  }

  lemma {:induction false} TrigramRecordsHeld(entries: seq<TrigramEntry>, b: seq<Byte>, pos: nat)
    requires forall k :: 0 <= k < |entries| ==> TrigramEntryFits(entries[k])
    requires Holds(b, pos, TrigramRecords(entries))
    ensures ReadTrigramRecords(b, pos, |entries|) == Some(entries)
    decreases |entries|
  {
    if entries != [] {
      HoldsParts(b, pos, TrigramRecord(entries[0]), TrigramRecords(entries[1..]));
      hide Holds, TrigramRecord, ReadTrigramRecord, TrigramEntryFits;
      TrigramRecordHeld(entries[0], b, pos);
      TrigramRecordsHeld(entries[1..], b, pos + 20);
      assert entries == [entries[0]] + entries[1..];
    }
  }

  lemma {:induction false} TrigramRecordsGrow(entries: seq<TrigramEntry>, e: TrigramEntry)
    ensures TrigramRecords(entries + [e]) == TrigramRecords(entries) + TrigramRecord(e)
    decreases |entries|
  {
    hide TrigramRecord;
    if entries == [] {
      assert [e][1..] == [];
      assert TrigramRecords([e]) == TrigramRecord(e) + TrigramRecords([]);
      assert [] + [e] == [e];
    } else {
      assert (entries + [e])[1..] == entries[1..] + [e];
      TrigramRecordsGrow(entries[1..], e);
    }
  }

  // -------------------------------------------------------------- trigram files

  datatype TrigramFiles = TrigramFiles(dict: seq<Byte>, postings: seq<Byte>)

  ghost predicate GroupsStorable(groups: seq<Group>) {
    forall k :: 0 <= k < |groups| ==> Storable(groups[k].docs)
  }

  /** The posting lists of the first `n` groups, end to end. */
  function Blocks(groups: seq<Group>, n: nat): seq<Byte>
    requires n <= |groups| && GroupsStorable(groups)
  {
    if n == 0 then [] else Blocks(groups, n - 1) + PostingBytes(groups[n - 1].docs)
  }

  function EntryOf(groups: seq<Group>, k: nat): TrigramEntry
    requires k < |groups| && GroupsStorable(groups)
  {
    TrigramEntry(groups[k].key, |Blocks(groups, k)|, |PostingBytes(groups[k].docs)|, |groups[k].docs|)
  }

  function EntriesOf(groups: seq<Group>, n: nat): (r: seq<TrigramEntry>)
    requires n <= |groups| && GroupsStorable(groups)
    ensures |r| == n && forall k :: 0 <= k < n ==> r[k] == EntryOf(groups, k)
  {
    if n == 0 then [] else EntriesOf(groups, n - 1) + [EntryOf(groups, n - 1)]
  }

  function TrigramFilesOf(groups: seq<Group>): TrigramFiles
    requires GroupsStorable(groups)
  {
    TrigramFiles(
      LittleEndian(|groups|, 4) + TrigramRecords(EntriesOf(groups, |groups|)),
      Blocks(groups, |groups|))
  }

  /** Every count, offset and length fits its field. */
  ghost predicate Fits(groups: seq<Group>)
    requires GroupsStorable(groups)
  {
    |groups| < Pow256(4) && forall k :: 0 <= k < |groups| ==> TrigramEntryFits(EntryOf(groups, k))
  }

  lemma {:induction false} BlockHeld(groups: seq<Group>, n: nat, k: nat)
    requires k < n <= |groups| && GroupsStorable(groups)
    ensures Holds(Blocks(groups, n), |Blocks(groups, k)|, PostingBytes(groups[k].docs))
  {
    if k < n - 1 {
      BlockHeld(groups, n - 1, k);
      hide PostingBytes, Storable;
      HeldLonger(Blocks(groups, n - 1), PostingBytes(groups[n - 1].docs), |Blocks(groups, k)|,
          PostingBytes(groups[k].docs));
    }
  }

  lemma HeldLonger(b: seq<Byte>, more: seq<Byte>, pos: nat, chunk: seq<Byte>)
    requires Holds(b, pos, chunk)
    ensures Holds(b + more, pos, chunk)
  {
    assert (b + more)[pos..pos + |chunk|] == b[pos..pos + |chunk|];
  }

  /** The first `k` groups are laid out. */
  ghost predicate Laid(files: TrigramFiles, offset: nat, groups: seq<Group>, k: nat)
    requires k <= |groups| && GroupsStorable(groups)
  {
    && files.dict == LittleEndian(|groups|, 4) + TrigramRecords(EntriesOf(groups, k))
    && files.postings == Blocks(groups, k) && offset == |files.postings|
  }

  function Append(files: TrigramFiles, e: TrigramEntry, encoded: seq<Byte>): TrigramFiles {
    TrigramFiles(files.dict + TrigramRecord(e), files.postings + encoded)
  }

  lemma NoneLaid(groups: seq<Group>)
    requires GroupsStorable(groups)
    ensures Laid(TrigramFiles(LittleEndian(|groups|, 4), []), 0, groups, 0)
  {
    hide LittleEndian;
  }

  lemma OneLaid(files: TrigramFiles, offset: nat, groups: seq<Group>, k: nat, encoded: seq<Byte>, docFreq: nat)
    requires k < |groups| && GroupsStorable(groups) && Laid(files, offset, groups, k)
    requires Storable(groups[k].docs) && encoded == PostingBytes(groups[k].docs) && docFreq == |groups[k].docs|
    ensures var e := TrigramEntry(groups[k].key, offset, |encoded|, docFreq);
            Laid(Append(files, e, encoded), offset + |encoded|, groups, k + 1)
  {
    hide LittleEndian, TrigramRecord, TrigramRecords, PostingBytes, Storable;
    TrigramRecordsGrow(EntriesOf(groups, k), EntryOf(groups, k));
  }

  lemma AllLaid(files: TrigramFiles, offset: nat, groups: seq<Group>)
    requires GroupsStorable(groups) && Laid(files, offset, groups, |groups|)
    ensures files == TrigramFilesOf(groups)
  {
    hide LittleEndian, TrigramRecords, EntriesOf, Blocks;
  }

  lemma StorableAt(groups: seq<Group>, k: nat)
    requires GroupsStorable(groups) && k < |groups|
    ensures Storable(groups[k].docs)
  {
  }

  lemma StorableSorted(docs: seq<DocId>)
    requires Storable(docs)
    ensures InU32(docs) && SortedFrom(0, docs) && PostingBytes(docs) == EncodeDeltas(docs, 0)
  {
  }

  /** Encodes every group first, then lays them out. */
  method WriteTrigramIndexFlat(groups: seq<Group>) returns (files: TrigramFiles)
    requires GroupsStorable(groups)
    ensures files == TrigramFilesOf(groups)
  {
    hide *;
    var encoded: seq<seq<Byte>> := [];
    var k := 0;
    while k < |groups|
      invariant 0 <= k <= |groups| && |encoded| == k
      invariant forall j :: 0 <= j < k ==> Storable(groups[j].docs) && encoded[j] == PostingBytes(groups[j].docs)
    {
      StorableAt(groups, k);
      StorableSorted(groups[k].docs);
      var enc := EncodeDocs(groups[k].docs);
      encoded := encoded + [enc];
      k := k + 1;
    }
    files := TrigramFiles(LittleEndian(|groups|, 4), []);
    var offset: nat := 0;
    NoneLaid(groups);
    k := 0;
    while k < |groups|
      invariant 0 <= k <= |groups| && Laid(files, offset, groups, k)
    {
      OneLaid(files, offset, groups, k, encoded[k], |groups[k].docs|);
      files := Append(files, TrigramEntry(groups[k].key, offset, |encoded[k]|, |groups[k].docs|), encoded[k]);
      offset := offset + |encoded[k]|;
      k := k + 1;
    }
    AllLaid(files, offset, groups);
  }

  method EncodeDocs(docs: seq<DocId>) returns (encoded: seq<Byte>)
    requires Storable(docs)
    ensures encoded == PostingBytes(docs)
  {
    encoded := DeltaEncode(docs, []);
  }

  function Kept(groups: seq<Group>, stop: set<Trigram>, n: nat): seq<Group>
    requires n <= |groups|
  {
    if n == 0 then []
    else Kept(groups, stop, n - 1) + if groups[n - 1].key in stop then [] else [groups[n - 1]]
  }

  ghost predicate GroupsInU32(groups: seq<Group>) {
    forall k :: 0 <= k < |groups| ==> InU32(groups[k].docs)
  }

  function Normal(groups: seq<Group>): (r: seq<Group>)
    requires GroupsInU32(groups)
    ensures |r| == |groups| && GroupsStorable(r)
    ensures forall k :: 0 <= k < |groups| ==> r[k] == Group(groups[k].key, Canonical(groups[k].docs))
  {
    seq(|groups|, k requires 0 <= k < |groups| => Group(groups[k].key, Canonical(groups[k].docs)))
  }

  lemma {:induction false} KeptInU32(groups: seq<Group>, stop: set<Trigram>, n: nat)
    requires n <= |groups| && GroupsInU32(groups)
    ensures GroupsInU32(Kept(groups, stop, n))
  {
    if n > 0 {
      KeptInU32(groups, stop, n - 1);
    }
  }

  lemma NormalAt(groups: seq<Group>, k: nat)
    requires GroupsInU32(groups) && k < |groups|
    ensures InU32(groups[k].docs) && Normal(groups)[k] == Group(groups[k].key, Canonical(groups[k].docs))
    ensures |Normal(groups)| == |groups| && GroupsStorable(Normal(groups)) && Storable(Canonical(groups[k].docs))
  {
  }

  method RetainGroups(groups: seq<Group>, stop: set<Trigram>) returns (filtered: seq<Group>)
    ensures filtered == Kept(groups, stop, |groups|)
  {
    filtered := [];
    var i := 0;
    while i < |groups|
      invariant 0 <= i <= |groups| && filtered == Kept(groups, stop, i)
    {
      filtered := filtered + if groups[i].key in stop then [] else [groups[i]];
      i := i + 1;
    }
  }

  lemma NormalOk(groups: seq<Group>)
    requires GroupsInU32(groups)
    ensures |Normal(groups)| == |groups| && GroupsStorable(Normal(groups))
  {
  }

  /** The writer of deltas and compaction: leaves out stop-grams, encodes and lays out in one pass. */
  method WriteTrigramIndex(postings: seq<Group>, stop: set<Trigram>) returns (files: TrigramFiles)
    requires GroupsInU32(postings)
    ensures GroupsInU32(Kept(postings, stop, |postings|))
    ensures files == TrigramFilesOf(Normal(Kept(postings, stop, |postings|)))
  {
    hide *;
    KeptInU32(postings, stop, |postings|);
    var filtered := RetainGroups(postings, stop);
    NormalOk(filtered);
    ghost var groups := Normal(filtered);
    files := TrigramFiles(LittleEndian(|filtered|, 4), []);
    var offset: nat, k := 0, 0;
    NoneLaid(groups);
    while k < |filtered|
      invariant 0 <= k <= |filtered| && Laid(files, offset, groups, k)
    {
      NormalAt(filtered, k);
      var encoded, docFreq := EncodePostings(filtered[k].docs);
      OneLaid(files, offset, groups, k, encoded, docFreq);
      files := Append(files, TrigramEntry(filtered[k].key, offset, |encoded|, docFreq), encoded);
      offset := offset + |encoded|;
      k := k + 1;
    }
    AllLaid(files, offset, groups);
  }

  method ReadTrigramDict(b: seq<Byte>) returns (r: Option<seq<TrigramEntry>>)
    ensures r == ParseTrigramDict(b)
  {
    if |b| < 4 {
      return None;
    }
    hide NumberAt;
    var count := NumberAt(b, 0, 4);
    var entries: seq<TrigramEntry> := [];
    var pos, i := 4, 0;
    AfterNone(ReadTrigramRecords(b, 4, count));
    while i < count
      invariant 0 <= i <= count && pos == 4 + 20 * i
      invariant ParseTrigramDict(b) == After(entries, ReadTrigramRecords(b, pos, count - i))
    {
      var e := ReadTrigramRecord(b, pos);
      hide ReadTrigramRecord;
      if e.None? {
        return None;
      }
      AfterOne(entries, e.value, ReadTrigramRecords(b, pos + 20, count - i - 1));
      entries := entries + [e.value];
      pos := pos + 20;
      i := i + 1;
    }
    assert entries + [] == entries;
    r := Some(entries);
  }

  function After<T>(head: seq<T>, tail: Option<seq<T>>): Option<seq<T>> {
    match tail
    case None => None
    case Some(rest) => Some(head + rest)
  }

  lemma AfterNone<T>(tail: Option<seq<T>>)
    ensures After([], tail) == tail
  {
    if tail.Some? {
      assert [] + tail.value == tail.value;
    }
  }

  lemma AfterOne<T>(head: seq<T>, x: T, tail: Option<seq<T>>)
    ensures After(head, After([x], tail)) == After(head + [x], tail)
  {
    if tail.Some? {
      assert head + ([x] + tail.value) == (head + [x]) + tail.value;
    }
  }

  /** What was laid out is read back. */
  lemma TrigramDictRoundTrip(groups: seq<Group>)
    requires GroupsStorable(groups) && Fits(groups)
    ensures ParseTrigramDict(TrigramFilesOf(groups).dict) == Some(EntriesOf(groups, |groups|))
  {
    var entries := EntriesOf(groups, |groups|);
    var dict := TrigramFilesOf(groups).dict;
    assert Holds(dict, 0, LittleEndian(|groups|, 4) + TrigramRecords(entries));
    HoldsParts(dict, 0, LittleEndian(|groups|, 4), TrigramRecords(entries));
    hide LittleEndian, Holds, TrigramRecords, ReadTrigramRecords, NumberAt, TrigramEntryFits, Pow256;
    NumberHeld(dict, 0, |groups|, 4);
    TrigramRecordsHeld(entries, dict, 4);
  }

  // ------------------------------------------------------------ trigram lookups

  function FindTrigram(entries: seq<TrigramEntry>, t: Trigram): (r: Option<TrigramEntry>)
    ensures r.Some? ==> r.value in entries && r.value.trigram == t
    ensures r.None? ==> forall e :: e in entries ==> e.trigram != t
  {
    if entries == [] then None
    else if entries[|entries| - 1].trigram == t then Some(entries[|entries| - 1])
    else FindTrigram(entries[..|entries| - 1], t)
  }

  ghost predicate TrigramsRise(entries: seq<TrigramEntry>) {
    forall i, j :: 0 <= i < j < |entries| ==> entries[i].trigram < entries[j].trigram
  }

  /** `binary_search_by_key` on the trigram. */
  method LookupTrigram(entries: seq<TrigramEntry>, t: Trigram) returns (r: Option<TrigramEntry>)
    requires TrigramsRise(entries)
    ensures r == FindTrigram(entries, t)
  {
    var le := (x: int, y: int) => x <= y;
    var keys: seq<int> := seq(|entries|, i requires 0 <= i < |entries| => entries[i].trigram);
    assert TotalOrder(le) && SortedBy(le, keys);
    var found, at := BinarySearch(le, keys, t);
    if found {
      assert keys[at] == entries[at].trigram;
      assert entries[at] in entries;
      return Some(entries[at]);
    }
    forall i | 0 <= i < |entries|
      ensures entries[i].trigram != t
    {
      assert keys[i] == entries[i].trigram;
      assert if i < at then !le(t, keys[i]) else !le(keys[i], t);
    }
    r := None;
  }

  /** The documents that a slice of a postings file decodes to, none if it is out of bounds. */
  function SliceDocs(postings: seq<Byte>, offset: nat, length: nat): set<U32> {
    if offset + length <= |postings| then Elements(DecodeDeltas(postings[offset..offset + length], 0, 0)) else {}
  }

  function TrigramDocsAt(files: TrigramFiles, t: Trigram): Option<set<U32>> {
    match ParseTrigramDict(files.dict)
    case None => None
    case Some(entries) =>
      match FindTrigram(entries, t)
      case None => Some({})
      case Some(e) => Some(SliceDocs(files.postings, e.offset, e.length))
  }

  method GetTrigramDocs(entries: seq<TrigramEntry>, postings: seq<Byte>, t: Trigram) returns (docs: set<U32>)
    requires TrigramsRise(entries)
    ensures docs ==
            match FindTrigram(entries, t) { case None => {} case Some(e) => SliceDocs(postings, e.offset, e.length) }
  {
    var entry := LookupTrigram(entries, t);
    if entry.Some? && entry.value.offset + entry.value.length <= |postings| {
      docs := DeltaDecodeBitmap(postings[entry.value.offset..entry.value.offset + entry.value.length]);
    } else {
      docs := {};
    }
  }

  method GetTrigramDocsIntersect(entries: seq<TrigramEntry>, postings: seq<Byte>, t: Trigram, filter: set<U32>)
      returns (docs: set<U32>)
    requires TrigramsRise(entries)
    ensures var e := FindTrigram(entries, t);
            docs == if e.None? then {} else SliceDocs(postings, e.value.offset, e.value.length) * filter
  {
    var entry := LookupTrigram(entries, t);
    if entry.Some? && entry.value.offset + entry.value.length <= |postings| {
      docs := DeltaDecodeIntersect(postings[entry.value.offset..entry.value.offset + entry.value.length], filter);
    } else {
      docs := {};
    }
  }

  lemma SliceHeld(docs: seq<DocId>, b: seq<Byte>, pos: nat)
    requires Storable(docs) && Holds(b, pos, PostingBytes(docs))
    ensures SliceDocs(b, pos, |PostingBytes(docs)|) == Elements(docs)
  {
    PostingsDecode(docs, PostingBytes(docs));
    hide PostingBytes, DecodeDeltas, Storable;
  }

  lemma ListedAt(groups: seq<Group>, m: Postings<Trigram>, k: nat)
    requires Iterates(groups, m) && k < |groups|
    ensures groups[k].key in m && m[groups[k].key] == groups[k].docs
  {
    assert groups[k] in groups;
  }

  lemma ListedSomewhere(groups: seq<Group>, m: Postings<Trigram>, t: Trigram) returns (k: nat)
    requires Iterates(groups, m) && t in m
    ensures k < |groups| && groups[k].key == t
  {
    var g :| g in groups && g.key == t;
    k :| 0 <= k < |groups| && groups[k] == g;
  }

  lemma EntriesRise(groups: seq<Group>, m: Postings<Trigram>)
    requires GroupsStorable(groups) && Iterates(groups, m)
    ensures TrigramsRise(EntriesOf(groups, |groups|))
  {
    hide Blocks, PostingBytes;
  }

  lemma FoundTrigram(entries: seq<TrigramEntry>, k: nat)
    requires TrigramsRise(entries) && k < |entries|
    ensures FindTrigram(entries, entries[k].trigram) == Some(entries[k])
  {
    var found := FindTrigram(entries, entries[k].trigram);
    hide FindTrigram;
    assert entries[k] in entries;
    var j :| 0 <= j < |entries| && entries[j] == found.value;
    assert j == k;
  }

  lemma FindsGroup(groups: seq<Group>, m: Postings<Trigram>, t: Trigram) returns (k: nat)
    requires GroupsStorable(groups) && Iterates(groups, m)
    ensures t !in m ==> FindTrigram(EntriesOf(groups, |groups|), t) == None
    ensures t in m ==>
            && k < |groups| && groups[k].docs == m[t]
            && FindTrigram(EntriesOf(groups, |groups|), t) == Some(EntryOf(groups, k))
  {
    k := 0;
    hide *;
    if t in m {
      EntriesRise(groups, m);
      k := ListedSomewhere(groups, m, t);
      ListedAt(groups, m, k);
      EntryKey(groups, k);
      FoundTrigram(EntriesOf(groups, |groups|), k);
    } else {
      FindsNone(groups, m, t);
    }
  }

  lemma {:induction false} FindsNone(groups: seq<Group>, m: Postings<Trigram>, t: Trigram)
    requires GroupsStorable(groups) && Iterates(groups, m) && t !in m
    ensures FindTrigram(EntriesOf(groups, |groups|), t) == None
  {
    var entries := EntriesOf(groups, |groups|);
    hide *;
    forall i | 0 <= i < |groups|
      ensures entries[i].trigram in m
    {
      EntryKey(groups, i);
      ListedAt(groups, m, i);
    }
  }

  lemma EntryKey(groups: seq<Group>, k: nat)
    requires GroupsStorable(groups) && k < |groups|
    ensures |EntriesOf(groups, |groups|)| == |groups| && EntriesOf(groups, |groups|)[k] == EntryOf(groups, k)
    ensures EntryOf(groups, k).trigram == groups[k].key
  {
  }

  lemma DocsFrom(files: TrigramFiles, entries: seq<TrigramEntry>, t: Trigram)
    requires ParseTrigramDict(files.dict) == Some(entries)
    ensures FindTrigram(entries, t).None? ==> TrigramDocsAt(files, t) == Some({})
    ensures FindTrigram(entries, t).Some? ==>
              var e := FindTrigram(entries, t).value;
              TrigramDocsAt(files, t) == Some(SliceDocs(files.postings, e.offset, e.length))
  {
    hide ParseTrigramDict, SliceDocs;
  }

  lemma EntryDocs(groups: seq<Group>, k: nat)
    requires GroupsStorable(groups) && k < |groups|
    ensures EntryOf(groups, k).docFreq == |groups[k].docs|
    ensures SliceDocs(TrigramFilesOf(groups).postings, EntryOf(groups, k).offset, EntryOf(groups, k).length) ==
            Elements(groups[k].docs)
  {
    BlockHeld(groups, |groups|, k);
    StorableAt(groups, k);
    hide Blocks, GroupsStorable, Holds, SliceDocs, Storable, PostingBytes;
    SliceHeld(groups[k].docs, Blocks(groups, |groups|), |Blocks(groups, k)|);
  }

  /** Every trigram of the list is found again with its documents, and no other is. */
  lemma TrigramsReadBack(groups: seq<Group>, m: Postings<Trigram>, t: Trigram)
    requires GroupsStorable(groups) && Fits(groups) && Iterates(groups, m)
    ensures TrigramDocsAt(TrigramFilesOf(groups), t) == Some(Elements(Get(m, t)))
    ensures var e := FindTrigram(EntriesOf(groups, |groups|), t);
            (if e.Some? then e.value.docFreq else 0) == |Get(m, t)|
  {
    var g := Get(m, t);
    assert g == if t in m then m[t] else [];
    hide *;
    TrigramDictRoundTrip(groups);
    DocsFrom(TrigramFilesOf(groups), EntriesOf(groups, |groups|), t);
    var k := FindsGroup(groups, m, t);
    if t in m {
      EntryDocs(groups, k);
    } else {
      NoElements();
    }
  }

  lemma NoElements()
    ensures Elements<DocId>([]) == {}
  {
  }
}
