/**
  A segment written either way and opened again answers every lookup as the
  sorted maps would (src/index/writer.rs:227-612, src/index/segment_io.rs:24-157,
  src/index/reader.rs:169-260).
*/
module SegmentAgreement {
  import opened Prelude
  import opened Text
  import opened Index
  import opened Tokenizer
  import opened SegmentBuilder
  import opened Encoding
  import opened Grouping
  import opened FlatWriter
  import opened Pipelines
  import opened Processing
  import opened SegmentFile
  import opened TokenFile
  import opened Bytes
  import opened Bloom
  import opened SegmentBloom

  // ------------------------------------------------------------ numbers in range

  /** Document ids and word positions are 32-bit numbers, so that their counts are too. */
  ghost predicate Numbers32(first: DocId, files: seq<ProcessedFile>) {
    && first + |files| <= U32_MAX
    && forall i, k :: 0 <= i < |files| && 0 <= k < |files[i].tokenPositions| ==> files[i].tokenPositions[k].1 < U32_MAX
  }

  lemma DocsInU32<K>(m: Postings<K>, k: K, top: nat)
    requires k in m && top <= U32_MAX && forall d: DocId :: Posts(m, k, d) ==> d < top
    ensures InU32(m[k])
  {
    forall i | 0 <= i < |m[k]|
      ensures m[k][i] <= U32_MAX
    {
      assert m[k][i] in m[k];
      assert Posts(m, k, m[k][i]);
    }
  }

  /** Every list a segment holds can be stored. */
  lemma SegmentLists(first: DocId, files: seq<ProcessedFile>, t: Trigram, u: Token)
    requires AllWellFormed(files) && Numbers32(first, files)
    ensures var m := BuildSegment(first, files).trigrams; t in m ==> Ascending(m[t]) && Storable(m[t])
    ensures var m := BuildSegment(first, files).tokens; u in m ==> Ascending(m[u]) && Storable(m[u])
  {
    var s := BuildSegment(first, files);
    BuiltFirst(first, files, |files|);
    hide BuildFirst, Recalls, Mentions, WellFormedFile, AllWellFormed;
    forall d: DocId
      ensures Posts(s.trigrams, t, d) ==> d < first + |files|
      ensures Posts(s.tokens, u, d) ==> d < first + |files|
    {
      SegmentPosts(first, files, d, t, u);
      InTrigramPairs(first, files, |files|, t, d);
      InTokenPairs(first, files, |files|, u, d);
    }
    hide TrigramPairs, TokenPairs, Posts;
    if t in s.trigrams {
      DocsInU32(s.trigrams, t, first + |files|);
      AscendingStorable(s.trigrams[t], 0);
    }
    if u in s.tokens {
      DocsInU32(s.tokens, u, first + |files|);
      AscendingStorable(s.tokens[u], 0);
    }
  }

  /** The row of a token names 32-bit documents and positions, and only tokens with postings have one. */
  lemma SegmentRowNumbers(first: DocId, files: seq<ProcessedFile>, t: Token, d: DocId, p: nat)
    requires AllWellFormed(files) && AllRising(files) && Numbers32(first, files)
    ensures var s := BuildSegment(first, files);
            d in Row(s.positions, t) && p in Row(s.positions, t)[d] ==> d <= U32_MAX && p < U32_MAX && t in s.tokens
  {
    var s := BuildSegment(first, files);
    var row := Row(s.positions, t);
    SegmentRow(first, files, t, d, p);
    InTokenTriples(first, files, |files|, t, d, p);
    SegmentPosts(first, files, d, 0, t);
    InTokenPairs(first, files, |files|, t, d);
    hide BuildSegment, TokenTriples, TokenPairs, TrigramPairs, Row;
    if d in row && p in row[d] {
      var f := files[d - first];
      var k :| 0 <= k < |f.tokenPositions| && f.tokens[f.tokenPositions[k].0] == t && f.tokenPositions[k].1 == p;
      assert f.tokenPositions[k].1 < U32_MAX;
      assert t in f.tokens;
      assert Posts(s.tokens, t, d);
    }
  }

  lemma {:induction false} RisingEncodable(places: seq<DocPlaces>, prev: U32)
    requires PlacesInU32(places) && (forall i, j :: 0 <= i < j < |places| ==> places[i].doc < places[j].doc)
    requires forall i :: 0 <= i < |places| ==> Ascending(places[i].positions) && |places[i].positions| <= U32_MAX
    requires places != [] ==> prev <= places[0].doc
    ensures Encodable(prev, ToEntries(places))
    decreases |places|
  {
    if places != [] {
      var rest := places[1..];
      AscendingStorable(places[0].positions, 0);
      RisingEncodable(rest, places[0].doc);
      assert ToEntries(places)[1..] == ToEntries(rest);
      assert ToEntries(places)[0] == Entry(places[0].doc, places[0].positions);
      hide Ascending, Encodable, SortedFrom, PlacesInU32;
      assert Encodable(prev, ToEntries(places)) by { EncodableCons(prev, ToEntries(places)); }
    }
  }

  lemma EncodableCons(prev: U32, entries: seq<Entry>)
    requires entries != [] && EncodableEntry(prev, entries[0]) && Encodable(entries[0].doc, entries[1..])
    ensures Encodable(prev, entries)
  {
  }

  /** Strictly rising numbers below the 32-bit maximum are no more than that. */
  lemma {:induction false} AscendingFew(s: seq<nat>, lowest: nat)
    requires Ascending(s) && forall i :: 0 <= i < |s| ==> lowest <= s[i] < U32_MAX
    ensures s == [] || |s| <= U32_MAX - lowest
    decreases |s|
  {
    if s != [] {
      AscendingFew(s[1..], s[0] + 1);
    }
  }

  lemma RowStorable(first: DocId, files: seq<ProcessedFile>, t: Token, places: seq<DocPlaces>)
    requires AllWellFormed(files) && AllRising(files) && Numbers32(first, files)
    requires RowListed(places, Row(BuildSegment(first, files).positions, t))
    ensures PlacesInU32(places) && Encodable(0, ToEntries(places))
    ensures places != [] ==> t in BuildSegment(first, files).tokens
  {
    var row := Row(BuildSegment(first, files).positions, t);
    forall i | 0 <= i < |places|
      ensures places[i].doc <= U32_MAX && InU32(places[i].positions) && Ascending(places[i].positions)
      ensures |places[i].positions| <= U32_MAX
      ensures t in BuildSegment(first, files).tokens
    {
      var d, positions := places[i].doc, places[i].positions;
      assert places[i] in places;
      assert d in row && row[d] == positions;
      SegmentRow(first, files, t, d, 0);
      forall k | 0 <= k < |positions|
        ensures d <= U32_MAX && positions[k] < U32_MAX && t in BuildSegment(first, files).tokens
      {
        assert positions[k] in row[d];
        SegmentRowNumbers(first, files, t, d, positions[k]);
      }
      hide BuildSegment, TokenTriples, Row, RowListed, Ascending, AllRising, AllWellFormed, Numbers32;
      assert positions != [];
      assert 0 <= positions[0] < U32_MAX;
      AscendingFew(positions, 0);
    }
    hide BuildSegment, Row, Ascending, AllRising, AllWellFormed, Numbers32;
    RisingEncodable(places, 0);
  }

  lemma ListingsStorable(first: DocId, files: seq<ProcessedFile>, groups: seq<Group>, entries: seq<TokenEntry>)
    requires AllWellFormed(files) && AllRising(files) && Numbers32(first, files)
    requires Iterates(groups, BuildSegment(first, files).trigrams)
    requires TokensListed(entries, BuildSegment(first, files).tokens, BuildSegment(first, files).positions)
    ensures GroupsStorable(groups) && AllStorable(entries)
  {
    hide BuildSegment, AllRising, AllWellFormed, Numbers32, Row, RowListed, Storable, PlacesInU32, Encodable,
        StrictlyBefore, InU32;
    forall k | 0 <= k < |groups|
      ensures Storable(groups[k].docs)
    {
      assert groups[k] in groups;
      SegmentLists(first, files, groups[k].key, "");
    }
    forall k | 0 <= k < |entries|
      ensures EntryStorable(entries[k])
    {
      assert entries[k] in entries;
      SegmentLists(first, files, 0, entries[k].token);
      StorableSorted(entries[k].docs);
      RowStorable(first, files, entries[k].token, entries[k].places);
    }
  }

  // --------------------------------------------------------------- reading tokens

  /** Decoded positions that list the row of a token. */
  ghost predicate EntriesList(es: seq<Entry>, row: map<DocId, seq<nat>>) {
    && (forall i, j :: 0 <= i < j < |es| ==> es[i].doc < es[j].doc)
    && (forall e :: e in es ==> e.doc in row && row[e.doc] == e.positions)
    && (forall d :: d in row ==> exists e :: e in es && e.doc == d)
  }

  lemma ToEntriesList(places: seq<DocPlaces>, row: map<DocId, seq<nat>>)
    requires PlacesInU32(places) && RowListed(places, row)
    ensures EntriesList(ToEntries(places), row)
  {
    var es := ToEntries(places);
    forall i | 0 <= i < |es|
      ensures es[i].doc in row && row[es[i].doc] == es[i].positions
    {
      assert places[i] in places;
    }
    forall d | d in row
      ensures exists e :: e in es && e.doc == d
    {
      var x :| x in places && x.doc == d;
      var i :| 0 <= i < |places| && places[i] == x;
      assert es[i] in es;
    }
  }

  lemma ListedToken(entries: seq<TokenEntry>, m: Postings<Token>, pm: PositionPostings, k: nat)
    requires TokensListed(entries, m, pm) && k < |entries|
    ensures entries[k].token in m && m[entries[k].token] == entries[k].docs
    ensures RowListed(entries[k].places, Row(pm, entries[k].token))
  {
    assert entries[k] in entries;
  }

  lemma TokenSomewhere(entries: seq<TokenEntry>, m: Postings<Token>, pm: PositionPostings, t: Token) returns (k: nat)
    requires TokensListed(entries, m, pm) && t in m
    ensures k < |entries| && entries[k].token == t
  {
    hide RowListed, StrictlyBefore;
    var e :| e in entries && e.token == t;
    k :| 0 <= k < |entries| && entries[k] == e;
  }

  lemma RecordAt(entries: seq<TokenEntry>, flat: bool, k: nat)
    requires AllStorable(entries) && k < |entries|
    ensures var rs := RecordsOf(CodeAll(entries), |CodeAll(entries)|, flat);
            |rs| == |CodeAll(entries)| == |entries|
              && rs[k] == RecordOf(CodeAll(entries), k, flat) && rs[k].token == entries[k].token
  {
    CodeAt(entries, k);
    hide PostingsUpTo, PlacesUpTo, EntryStorable, Canonical, PostingBytes, PlaceBytes;
  }

  lemma RecordsRise(entries: seq<TokenEntry>, m: Postings<Token>, pm: PositionPostings, flat: bool)
    requires AllStorable(entries) && TokensListed(entries, m, pm)
    ensures TokensRise(RecordsOf(CodeAll(entries), |CodeAll(entries)|, flat))
  {
    var rs := RecordsOf(CodeAll(entries), |CodeAll(entries)|, flat);
    hide RecordsOf, CodeAll, AllStorable, RowListed, StrictlyBefore;
    forall i, j | 0 <= i < j < |rs|
      ensures StrictlyBefore(rs[i].token, rs[j].token)
    {
      assert |rs| == |entries| by { CodeLength(entries, flat); }
      RecordAt(entries, flat, i);
      RecordAt(entries, flat, j);
    }
  }

  lemma CodeLength(entries: seq<TokenEntry>, flat: bool)
    requires AllStorable(entries)
    ensures |RecordsOf(CodeAll(entries), |CodeAll(entries)|, flat)| == |CodeAll(entries)| == |entries|
  {
  }

  lemma {:induction false} FindsNoToken(entries: seq<TokenEntry>, m: Postings<Token>, pm: PositionPostings, flat: bool,
      t: Token)
    requires AllStorable(entries) && TokensListed(entries, m, pm) && t !in m
    ensures FindToken(RecordsOf(CodeAll(entries), |CodeAll(entries)|, flat), t) == None
  {
    var rs := RecordsOf(CodeAll(entries), |CodeAll(entries)|, flat);
    hide *;
    CodeLength(entries, flat);
    forall i | 0 <= i < |rs|
      ensures rs[i].token in m
    {
      RecordAt(entries, flat, i);
      ListedToken(entries, m, pm, i);
    }
  }

  /** What the reader finds for a token, given the dictionary it parsed. */
  lemma ParsedLookup(files: TokenFiles, rs: seq<TokenRecord>, t: Token)
    requires ParseTokenDict(files.dict) == Some(rs)
    ensures match FindToken(rs, t)
            case None => TokenDocsAt(files, t) == Some({}) && forall f :: TokenPlacesAt(files, t, f) == None
            case Some(r) =>
              && TokenDocsAt(files, t) == Some(SliceDocs(files.postings, r.offset, r.length))
              && forall f :: TokenPlacesAt(files, t, f) == SlicePlaces(files.positions, r.posOffset, r.posLength, f)
  {
    hide ParseTokenDict, SliceDocs, SlicePlaces, FindToken;
  }

  /** The reader recalls documents and positions of a token, with or without a filter, as the maps hold them. */
  ghost predicate TokenRecalled(files: TokenFiles, m: Postings<Token>, pm: PositionPostings, t: Token) {
    && TokenDocsAt(files, t) == Some(Elements(Get(m, t)))
    && match TokenPlacesAt(files, t, None)
       case None => (t in m ==> Row(pm, t) == map[]) && forall f :: TokenPlacesAt(files, t, Some(f)) == None
       case Some(es) =>
         t in m && EntriesList(es, Row(pm, t)) && forall f :: TokenPlacesAt(files, t, Some(f)) == Some(Retain(es, f))
  }

  lemma EmptyRow(row: map<DocId, seq<nat>>)
    requires RowListed([], row)
    ensures row == map[]
  {
    assert forall d :: d !in row;
  }

  lemma RecalledPresent(entries: seq<TokenEntry>, m: Postings<Token>, pm: PositionPostings, flat: bool, k: nat)
    requires AllStorable(entries) && TokensListed(entries, m, pm) && TokensFit(CodeAll(entries), flat) && k < |entries|
    ensures TokenRecalled(TokenFilesOf(entries, flat), m, pm, entries[k].token)
  {
    var coded := CodeAll(entries);
    var rs, files, e := RecordsOf(coded, |coded|, flat), TokenFilesOf(entries, flat), entries[k];
    CodeAt(entries, k);
    assert files == Layout(coded, |coded|, flat);
    assert PlacesInU32(e.places);
    ListedToken(entries, m, pm, k);
    assert Get(m, e.token) == e.docs;
    ToEntriesList(e.places, Row(pm, e.token));
    hide *;
    TokenDictRoundTrip(coded, flat);
    RecordsRise(entries, m, pm, flat);
    RecordAt(entries, flat, k);
    FoundToken(rs, k);
    ParsedLookup(files, rs, e.token);
    EntryReadBack(entries, k, flat);
    if e.places == [] {
      EmptyRow(Row(pm, e.token));
      RecalledWithout(files, m, pm, e.token);
    } else {
      RecalledWith(files, m, pm, e.token, ToEntries(e.places));
    }
  }

  lemma RecalledWithout(files: TokenFiles, m: Postings<Token>, pm: PositionPostings, t: Token)
    requires TokenDocsAt(files, t) == Some(Elements(Get(m, t)))
    requires (t in m ==> Row(pm, t) == map[]) && forall f :: TokenPlacesAt(files, t, f) == None
    ensures TokenRecalled(files, m, pm, t)
  {
    hide TokenDocsAt, TokenPlacesAt, Row;
  }

  lemma RecalledWith(files: TokenFiles, m: Postings<Token>, pm: PositionPostings, t: Token, es: seq<Entry>)
    requires TokenDocsAt(files, t) == Some(Elements(Get(m, t))) && t in m
    requires TokenPlacesAt(files, t, None) == Some(es) && EntriesList(es, Row(pm, t))
    requires forall f :: TokenPlacesAt(files, t, Some(f)) == Some(Retain(es, f))
    ensures TokenRecalled(files, m, pm, t)
  {
    hide TokenDocsAt, TokenPlacesAt, Row, EntriesList, Retain;
  }

  lemma NoPostings(m: Postings<Token>, t: Token)
    requires t !in m
    ensures Elements(Get(m, t)) == {}
  {
  }

  /** Written by either writer and read again, a token has the documents and positions it was given. */
  lemma TokensReadBack(entries: seq<TokenEntry>, m: Postings<Token>, pm: PositionPostings, flat: bool, t: Token)
    requires AllStorable(entries) && TokensListed(entries, m, pm) && TokensFit(CodeAll(entries), flat)
    ensures TokenRecalled(TokenFilesOf(entries, flat), m, pm, t)
  {
    if t in m {
      var k := TokenSomewhere(entries, m, pm, t);
      RecalledPresent(entries, m, pm, flat, k);
    } else {
      var coded := CodeAll(entries);
      var rs, files := RecordsOf(coded, |coded|, flat), TokenFilesOf(entries, flat);
      assert files == Layout(coded, |coded|, flat);
      hide *;
      TokenDictRoundTrip(coded, flat);
      FindsNoToken(entries, m, pm, flat, t);
      ParsedLookup(files, rs, t);
      NoPostings(m, t);
      RecalledWithout(files, m, pm, t);
    }
  }

  // ------------------------------------------------------------- both pipelines

  /** The files were extracted from contents. */
  ghost predicate AllProcessed(files: seq<ProcessedFile>) {
    forall i :: 0 <= i < |files| ==> exists content :: Processed(files[i], content)
  }

  lemma ProcessedFiles(files: seq<ProcessedFile>)
    requires AllProcessed(files)
    ensures AllWellFormed(files) && AllRising(files)
  {
    hide Processed, WellFormedFile, RisingPositions;
    forall i | 0 <= i < |files|
      ensures WellFormedFile(files[i]) && RisingPositions(files[i])
    {
      var content :| Processed(files[i], content);
      ProcessedIsWellFormed(files[i], content);
      ProcessedRises(files[i], content);
    }
  }

  /** A token of the dictionary is short, and has a position in some document. */
  lemma TokenShort(first: DocId, files: seq<ProcessedFile>, t: Token) returns (d: DocId, p: nat)
    requires AllProcessed(files) && AllWellFormed(files) && t in BuildSegment(first, files).tokens
    ensures |Utf8(t)| <= MAX_TOKEN_LENGTH
    ensures (t, d, p) in TokenTriples(first, files, |files|)
  {
    var s := BuildSegment(first, files);
    NoEmptyLists(first, files, |files|);
    d := s.tokens[t][0];
    SegmentPosts(first, files, d, 0, t);
    assert Posts(s.tokens, t, d);
    InTokenPairs(first, files, |files|, t, d);
    hide BuildSegment, TokenPairs, TrigramPairs, Processed, Utf8;
    var f := files[d - first];
    var content :| Processed(f, content);
    var k := ProcessedToken(f, content, t);
    p := f.tokenPositions[k].1;
    assert WellFormedFile(f);
    assert Occurs(f, |f.tokenPositions|, t, p);
    InTokenTriples(first, files, |files|, t, d, p);
  }

  /** Offsets, lengths and counts of a token's record fit their fields. */
  predicate NumbersFit(r: TokenRecord) {
    && r.offset < Pow256(8) && r.length < Pow256(4) && r.docFreq < Pow256(4)
    && r.posOffset < Pow256(8) && r.posLength < Pow256(4)
  }

  ghost predicate RecordsFit(coded: seq<Coded>, flat: bool) {
    |coded| < Pow256(4) && forall k :: 0 <= k < |coded| ==> NumbersFit(RecordOf(coded, k, flat))
  }

  /** Every length, count and offset of the files fits its field; that tokens do is known. */
  ghost predicate SizesFit(s: Segment) {
    && (forall groups :: GroupsStorable(groups) && Iterates(groups, s.trigrams) ==> Fits(groups))
    && (forall entries, flat :: AllStorable(entries) && TokensListed(entries, s.tokens, s.positions) ==>
        RecordsFit(CodeAll(entries), flat))
  }

  lemma RecordFitsToken(r: TokenRecord)
    requires NumbersFit(r) && |Utf8(r.token)| <= MAX_TOKEN_LENGTH
    ensures RecordFits(r)
  {
    Widths();
    hide Utf8;
  }

  lemma AllRecordsFit(first: DocId, files: seq<ProcessedFile>, entries: seq<TokenEntry>, flat: bool)
    requires AllProcessed(files) && AllWellFormed(files) && AllStorable(entries)
    requires TokensListed(entries, BuildSegment(first, files).tokens, BuildSegment(first, files).positions)
    requires RecordsFit(CodeAll(entries), flat)
    ensures TokensFit(CodeAll(entries), flat)
  {
    var coded := CodeAll(entries);
    hide BuildSegment, AllProcessed, AllWellFormed, CodeAll, Utf8, NumbersFit, RecordFits, TokensListed, AllStorable;
    forall k | 0 <= k < |coded|
      ensures RecordFits(RecordOf(coded, k, flat))
    {
      CodeLength(entries, flat);
      RecordAt(entries, flat, k);
      ListedToken(entries, BuildSegment(first, files).tokens, BuildSegment(first, files).positions, k);
      var d, p := TokenShort(first, files, entries[k].token);
      RecordFitsToken(RecordOf(coded, k, flat));
    }
  }

  /** Every token listed has positions. */
  lemma EntriesPlaced(first: DocId, files: seq<ProcessedFile>, entries: seq<TokenEntry>)
    requires AllProcessed(files) && AllWellFormed(files) && AllRising(files)
    requires TokensListed(entries, BuildSegment(first, files).tokens, BuildSegment(first, files).positions)
    ensures forall e :: e in entries ==> e.places != []
  {
    var s := BuildSegment(first, files);
    forall k | 0 <= k < |entries|
      ensures entries[k].places != []
    {
      var t := entries[k].token;
      ListedToken(entries, s.tokens, s.positions, k);
      var d, p := TokenShort(first, files, t);
      SegmentRow(first, files, t, d, p);
      hide BuildSegment, AllProcessed, AllWellFormed, AllRising, TokensListed, TokenTriples, Row;
      assert d in Row(s.positions, t);
    }
  }

  /** The files answer every lookup as the segment's maps do. */
  ghost predicate Recalled(grams: TrigramFiles, tokens: TokenFiles, s: Segment) {
    && (forall t: Trigram :: TrigramDocsAt(grams, t) == Some(Elements(Get(s.trigrams, t))))
    && (forall t: Token :: TokenRecalled(tokens, s.tokens, s.positions, t))
  }

  lemma ListingsRecalled(first: DocId, files: seq<ProcessedFile>, groups: seq<Group>, entries: seq<TokenEntry>,
      flat: bool)
    requires AllProcessed(files) && AllWellFormed(files) && AllRising(files)
    requires Numbers32(first, files) && SizesFit(BuildSegment(first, files))
    requires Iterates(groups, BuildSegment(first, files).trigrams)
    requires TokensListed(entries, BuildSegment(first, files).tokens, BuildSegment(first, files).positions)
    ensures GroupsStorable(groups) && AllStorable(entries)
    ensures Recalled(TrigramFilesOf(groups), TokenFilesOf(entries, flat), BuildSegment(first, files))
  {
    var s := BuildSegment(first, files);
    ListingsStorable(first, files, groups, entries);
    assert Fits(groups) && RecordsFit(CodeAll(entries), flat);
    AllRecordsFit(first, files, entries, flat);
    hide AllProcessed, RecordsFit, BuildSegment, Iterates, TokensListed, Fits, TokensFit, SizesFit, GroupsStorable,
        AllStorable, AllRising, AllWellFormed, Numbers32;
    hide TokenRecalled, TrigramDocsAt, TrigramFilesOf, TokenFilesOf;
    forall t: Trigram
      ensures TrigramDocsAt(TrigramFilesOf(groups), t) == Some(Elements(Get(s.trigrams, t)))
    {
      TrigramsReadBack(groups, s.trigrams, t);
    }
    forall t: Token
      ensures TokenRecalled(TokenFilesOf(entries, flat), s.tokens, s.positions, t)
    {
      TokensReadBack(entries, s.tokens, s.positions, flat, t);
    }
  }

  lemma {:induction false} NothingStopped(groups: seq<Group>, n: nat)
    requires n <= |groups|
    ensures Kept(groups, {}, n) == groups[..n]
  {
    if n > 0 {
      NothingStopped(groups, n - 1);
      assert groups[..n] == groups[..n - 1] + [groups[n - 1]];
    }
  }

  /** Sorted lists are written as they are. */
  lemma NormalAlready(groups: seq<Group>)
    requires GroupsStorable(groups)
    ensures GroupsInU32(groups) && Normal(groups) == groups
  {
    forall k | 0 <= k < |groups|
      ensures InU32(groups[k].docs) && Canonical(groups[k].docs) == groups[k].docs
    {
      assert Storable(groups[k].docs);
    }
    hide Canonical, InU32, Storable;
    var r := Normal(groups);
    forall k | 0 <= k < |groups|
      ensures r[k] == groups[k]
    {
    }
  }

  /** The files of a segment. */
  datatype SegmentFiles = SegmentFiles(grams: TrigramFiles, tokens: TokenFiles, bloom: seq<Byte>)

  /** How a filter is sized, and how it hashes. */
  datatype Sizing = Sizing(words: nat, hashes: nat, hash: HashPair)

  predicate SizingFits(z: Sizing) {
    0 < z.words < Pow256(4) && z.hashes < 256
  }

  /** What was written answers as the segment's maps do, and its filter lets every posted trigram through. */
  ghost predicate Answers(out: SegmentFiles, z: Sizing, s: Segment) {
    Recalled(out.grams, out.tokens, s) && Filters(out.bloom, z.hash, Posted(s))
  }

  lemma PairsPosted(first: DocId, files: seq<ProcessedFile>, pairs: seq<Pair>)
    requires AllWellFormed(files) && forall x: Pair :: x in pairs <==> x in TrigramPairs(first, files, |files|)
    ensures Posted(BuildSegment(first, files)) <= set x | x in pairs :: x.0
  {
    var s := BuildSegment(first, files);
    hide BuildSegment, TrigramPairs, AllWellFormed;
    forall t | t in Posted(s)
      ensures t in set x | x in pairs :: x.0
    {
      var d := s.trigrams[t][0];
      SegmentPosts(first, files, d, t, "");
      assert Posts(s.trigrams, t, d);
      assert (t, d) in pairs;
      assert (t, d).0 == t;
    }
  }

  function KeysOf(groups: seq<Group>): (r: seq<Trigram>)
    ensures |r| == |groups| && forall k :: 0 <= k < |groups| ==> r[k] == groups[k].key
  {
    seq(|groups|, k requires 0 <= k < |groups| => groups[k].key)
  }

  lemma GroupsPosted(groups: seq<Group>, s: Segment)
    requires Iterates(groups, s.trigrams)
    ensures Posted(s) <= Elements(KeysOf(groups))
  {
    forall t | t in Posted(s)
      ensures t in KeysOf(groups)
    {
      var k := ListedSomewhere(groups, s.trigrams, t);
      assert KeysOf(groups)[k] == t;
    }
  }

  /** The full build's way to a segment on disk. */
  method WriteFlatSegment(first: DocId, files: seq<ProcessedFile>, z: Sizing) returns (out: SegmentFiles)
    requires AllProcessed(files) && AllWellFormed(files)
    requires Numbers32(first, files) && SizesFit(BuildSegment(first, files)) && SizingFits(z)
    ensures Answers(out, z, BuildSegment(first, files))
  {
    assert 0 < z.words < Pow256(4) && z.hashes < 256;
    hide *;
    ProcessedFiles(files);
    var pairs, groups, entries := ProcessSegment(first, files);
    ListingsRecalled(first, files, groups, entries, true);
    PairsPosted(first, files, pairs);
    var grams := WriteTrigramIndexFlat(groups);
    var tokens := WriteTokenIndexFlat(entries);
    var bloom := BloomOfPairs(pairs, z.words, z.hashes, z.hash);
    FiltersFewer(bloom, z.hash, set x | x in pairs :: x.0, Posted(BuildSegment(first, files)));
    out := SegmentFiles(grams, tokens, bloom);
    AnswersAre(out, z, BuildSegment(first, files));
  }

  lemma AnswersAre(out: SegmentFiles, z: Sizing, s: Segment)
    requires Recalled(out.grams, out.tokens, s) && Filters(out.bloom, z.hash, Posted(s))
    ensures Answers(out, z, s)
  {
  }

  /** The delta writer's way: it iterates the sorted maps it filled file by file. */
  method WriteDeltaSegment(trigramPostings: seq<Group>, tokenPostings: seq<TokenEntry>, z: Sizing, ghost first: DocId,
      ghost files: seq<ProcessedFile>)
    returns (out: SegmentFiles)
    requires AllProcessed(files) && AllWellFormed(files)
    requires Numbers32(first, files) && SizesFit(BuildSegment(first, files)) && SizingFits(z)
    requires Iterates(trigramPostings, BuildSegment(first, files).trigrams)
    requires TokensListed(tokenPostings, BuildSegment(first, files).tokens, BuildSegment(first, files).positions)
    ensures Answers(out, z, BuildSegment(first, files))
  {
    assert 0 < z.words < Pow256(4) && z.hashes < 256;
    hide *;
    ProcessedFiles(files);
    ListingsRecalled(first, files, trigramPostings, tokenPostings, false);
    GroupsPosted(trigramPostings, BuildSegment(first, files));
    NormalAlready(trigramPostings);
    NothingStopped(trigramPostings, |trigramPostings|);
    assert trigramPostings[..|trigramPostings|] == trigramPostings;
    var grams := WriteTrigramIndex(trigramPostings, {});
    var tokens := WriteTokenIndex(tokenPostings);
    var bloom := BuildAndWriteBloom(KeysOf(trigramPostings), z.words, z.hashes, z.hash);
    FiltersFewer(bloom, z.hash, Elements(KeysOf(trigramPostings)), Posted(BuildSegment(first, files)));
    out := SegmentFiles(grams, tokens, bloom);
    AnswersAre(out, z, BuildSegment(first, files));
  }

  lemma {:induction false} SameRecords(coded: seq<Coded>, n: nat)
    requires n <= |coded| && forall k :: 0 <= k < n ==> coded[k].places != []
    ensures RecordsOf(coded, n, true) == RecordsOf(coded, n, false)
  {
    if n > 0 {
      SameRecords(coded, n - 1);
      hide PostingsUpTo, PlacesUpTo;
    }
  }

  /** The two pipelines write the same bytes. */
  lemma PipelinesAgree(first: DocId, files: seq<ProcessedFile>, groups: seq<Group>, entries: seq<TokenEntry>,
                       trigramPostings: seq<Group>, tokenPostings: seq<TokenEntry>)
    requires AllProcessed(files) && AllWellFormed(files) && Numbers32(first, files)
    requires Iterates(groups, BuildSegment(first, files).trigrams)
    requires Iterates(trigramPostings, BuildSegment(first, files).trigrams)
    requires TokensListed(entries, BuildSegment(first, files).tokens, BuildSegment(first, files).positions)
    requires TokensListed(tokenPostings, BuildSegment(first, files).tokens, BuildSegment(first, files).positions)
    ensures GroupsStorable(groups) && GroupsStorable(trigramPostings) && AllStorable(entries)
    ensures AllStorable(tokenPostings)
    ensures TrigramFilesOf(groups) == TrigramFilesOf(trigramPostings)
    ensures TokenFilesOf(entries, true) == TokenFilesOf(tokenPostings, false)
  {
    var s := BuildSegment(first, files);
    ProcessedFiles(files);
    ListingsStorable(first, files, groups, entries);
    ListingsStorable(first, files, trigramPostings, tokenPostings);
    TrigramsUnique(groups, trigramPostings, s.trigrams);
    TokensUnique(entries, tokenPostings, s.tokens, s.positions);
    EntriesPlaced(first, files, entries);
    hide AllProcessed, BuildSegment, Iterates, TokensListed, GroupsStorable, AllRising, AllWellFormed, Numbers32;
    var coded := CodeAll(entries);
    forall k | 0 <= k < |entries|
      ensures coded[k].places != []
    {
      CodeAt(entries, k);
      assert entries[k] in entries;
    }
    SameRecords(coded, |coded|);
  }
}
