/**
  The token dictionary, its postings and its positions as bytes
  (src/index/segment_io.rs:84-157, src/index/writer.rs:551-612,
  src/index/reader.rs:210-260, 963-1038).
*/
module TokenFile {
  import opened Prelude
  import opened Sorting
  import opened Text
  import opened Index
  import opened Encoding
  import opened Bytes
  import opened Grouping
  import opened FlatWriter
  import opened SegmentFile

  // ----------------------------------------------------------------- encoding

  predicate PlacesInU32(places: seq<DocPlaces>) {
    forall i :: 0 <= i < |places| ==> places[i].doc <= U32_MAX && InU32(places[i].positions)
  }

  function ToEntry(e: DocPlaces): Entry
    requires e.doc <= U32_MAX && InU32(e.positions)
  {
    Entry(e.doc, e.positions)
  }

  function ToEntries(places: seq<DocPlaces>): (r: seq<Entry>)
    requires PlacesInU32(places)
  {
    seq(|places|, i requires 0 <= i < |places| => ToEntry(places[i]))
  }

  /** An entry whose numbers and order the codecs accept. */
  predicate EntryStorable(e: TokenEntry) {
    InU32(e.docs) && PlacesInU32(e.places) && Encodable(0, ToEntries(e.places))
  }

  function PlaceBytes(places: seq<DocPlaces>): (b: seq<Byte>)
    requires PlacesInU32(places) && Encodable(0, ToEntries(places))
    ensures b == [] <==> places == []
  {
    EncodePositions(ToEntries(places), 0)
  }

  /** An entry with its lists encoded. */
  datatype Coded = Coded(token: Token, postings: seq<Byte>, docFreq: nat, places: seq<Byte>)

  function Code(e: TokenEntry): Coded
    requires EntryStorable(e)
  {
    Coded(e.token, PostingBytes(Canonical(e.docs)), |Canonical(e.docs)|, PlaceBytes(e.places))
  }

  ghost predicate AllStorable(entries: seq<TokenEntry>) {
    forall k :: 0 <= k < |entries| ==> EntryStorable(entries[k])
  }

  function CodeAll(entries: seq<TokenEntry>): (r: seq<Coded>)
    requires AllStorable(entries)
    ensures |r| == |entries| && forall k :: 0 <= k < |entries| ==> r[k] == Code(entries[k])
  {
    seq(|entries|, k requires 0 <= k < |entries| => Code(entries[k]))
  }

  method EncodePlaces(places: seq<DocPlaces>) returns (b: seq<Byte>)
    requires PlacesInU32(places) && Encodable(0, ToEntries(places))
    ensures b == PlaceBytes(places)
  {
    b := EncodePositionPostings(ToEntries(places), []);
  }

  // ------------------------------------------------------------------- layout

  datatype TokenRecord = TokenRecord(
    token: Token,
    offset: nat,
    length: nat,
    docFreq: nat,
    posOffset: nat,
    posLength: nat)

  function RecordTail(r: TokenRecord): (b: seq<Byte>)
    ensures |b| == 28
  {
    LittleEndian(r.offset, 8) + LittleEndian(r.length, 4) + LittleEndian(r.docFreq, 4)
    + LittleEndian(r.posOffset, 8) + LittleEndian(r.posLength, 4)
  }

  function RecordBytes(r: TokenRecord): seq<Byte> {
    LittleEndian(|Utf8(r.token)|, 2) + (Utf8(r.token) + RecordTail(r))
  }

  function Records(rs: seq<TokenRecord>): seq<Byte> {
    if rs == [] then [] else RecordBytes(rs[0]) + Records(rs[1..])
  }

  lemma {:induction false} RecordsGrow(rs: seq<TokenRecord>, r: TokenRecord)
    ensures Records(rs + [r]) == Records(rs) + RecordBytes(r)
    decreases |rs|
  {
    hide RecordBytes;
    if rs == [] {
      assert [r][1..] == [];
      assert Records([r]) == RecordBytes(r) + Records([]);
      assert [] + [r] == [r];
    } else {
      assert (rs + [r])[1..] == rs[1..] + [r];
      RecordsGrow(rs[1..], r);
    }
  }

  /** The posting lists of the first `n` tokens, end to end. */
  function PostingsUpTo(coded: seq<Coded>, n: nat): seq<Byte>
    requires n <= |coded|
  {
    if n == 0 then [] else PostingsUpTo(coded, n - 1) + coded[n - 1].postings
  }

  function PlacesUpTo(coded: seq<Coded>, n: nat): seq<Byte>
    requires n <= |coded|
  {
    if n == 0 then [] else PlacesUpTo(coded, n - 1) + coded[n - 1].places
  }

  /** The two writers differ in the offset they give a token without positions. */
  function RecordOf(coded: seq<Coded>, k: nat, flat: bool): TokenRecord
    requires k < |coded|
  {
    TokenRecord(
      coded[k].token, |PostingsUpTo(coded, k)|, |coded[k].postings|, coded[k].docFreq,
      if flat && coded[k].places == [] then 0 else |PlacesUpTo(coded, k)|, |coded[k].places|)
  }

  function RecordsOf(coded: seq<Coded>, n: nat, flat: bool): (r: seq<TokenRecord>)
    requires n <= |coded|
    ensures |r| == n && forall k :: 0 <= k < n ==> r[k] == RecordOf(coded, k, flat)
  {
    if n == 0 then [] else RecordsOf(coded, n - 1, flat) + [RecordOf(coded, n - 1, flat)]
  }

  datatype TokenFiles = TokenFiles(dict: seq<Byte>, postings: seq<Byte>, positions: seq<Byte>)

  function Layout(coded: seq<Coded>, n: nat, flat: bool): TokenFiles
    requires n <= |coded|
  {
    TokenFiles(
      LittleEndian(|coded|, 4) + Records(RecordsOf(coded, n, flat)),
      PostingsUpTo(coded, n),
      PlacesUpTo(coded, n))
  }

  function Append(files: TokenFiles, r: TokenRecord, postings: seq<Byte>, places: seq<Byte>): TokenFiles {
    TokenFiles(files.dict + RecordBytes(r), files.postings + postings, files.positions + places)
  }

  /** The token files of a list of entries. */
  function TokenFilesOf(entries: seq<TokenEntry>, flat: bool): TokenFiles
    requires AllStorable(entries)
  {
    Layout(CodeAll(entries), |entries|, flat)
  }

  lemma LayoutStep(coded: seq<Coded>, k: nat, flat: bool)
    requires k < |coded|
    ensures Layout(coded, k + 1, flat) ==
            Append(Layout(coded, k, flat), RecordOf(coded, k, flat), coded[k].postings, coded[k].places)
  {
    hide LittleEndian, RecordBytes, RecordOf, Records;
    RecordsGrow(RecordsOf(coded, k, flat), RecordOf(coded, k, flat));
  }

  lemma LayoutStart(coded: seq<Coded>, flat: bool)
    ensures Layout(coded, 0, flat) == TokenFiles(LittleEndian(|coded|, 4), [], [])
  {
    hide LittleEndian;
  }

  lemma CodeAt(entries: seq<TokenEntry>, k: nat)
    requires AllStorable(entries) && k < |entries|
    ensures |CodeAll(entries)| == |entries| && EntryStorable(entries[k]) && CodeAll(entries)[k] == Code(entries[k])
  {
  }

  /** Both lists of an entry encoded. */
  method Encode(e: TokenEntry) returns (c: Coded)
    requires EntryStorable(e)
    ensures c == Code(e)
  {
    hide Canonical, PostingBytes, PlaceBytes, InU32, Encodable;
    var postings, docFreq := EncodePostings(e.docs);
    var places := EncodePlaces(e.places);
    c := Coded(e.token, postings, docFreq, places);
  }

  lemma RecordIs(coded: seq<Coded>, k: nat, flat: bool, offset: nat, posOffset: nat)
    requires k < |coded|
    requires offset == |Layout(coded, k, flat).postings| && posOffset == |Layout(coded, k, flat).positions|
    ensures var c := coded[k];
            var at := if flat && c.places == [] then 0 else posOffset;
            var record := TokenRecord(c.token, offset, |c.postings|, c.docFreq, at, |c.places|);
            && Layout(coded, k + 1, flat) == Append(Layout(coded, k, flat), record, c.postings, c.places)
            && |Layout(coded, k + 1, flat).postings| == offset + |c.postings|
            && |Layout(coded, k + 1, flat).positions| == posOffset + |c.places|
  {
    LayoutStep(coded, k, flat);
    hide Records, RecordsOf, RecordBytes, LittleEndian;
  }

  method EncodeAll(entries: seq<TokenEntry>) returns (encoded: seq<Coded>)
    requires AllStorable(entries)
    ensures encoded == CodeAll(entries)
  {
    hide Code, EntryStorable;
    encoded := [];
    var k := 0;
    while k < |entries|
      invariant 0 <= k <= |entries| && |encoded| == k
      invariant forall j :: 0 <= j < k ==> encoded[j] == CodeAll(entries)[j]
    {
      CodeAt(entries, k);
      var c := Encode(entries[k]);
      encoded := encoded + [c];
      k := k + 1;
    }
  }

  lemma FilesAre(entries: seq<TokenEntry>, flat: bool)
    requires AllStorable(entries)
    ensures |CodeAll(entries)| == |entries| && TokenFilesOf(entries, flat) == Layout(CodeAll(entries), |entries|, flat)
  {
  }

  /** The full build's writer: every list encoded first, then laid out with running offsets. */
  method WriteTokenIndexFlat(entries: seq<TokenEntry>) returns (files: TokenFiles)
    requires AllStorable(entries)
    ensures files == TokenFilesOf(entries, true)
  {
    hide *;
    FilesAre(entries, true);
    var encoded := EncodeAll(entries);
    files := TokenFiles(LittleEndian(|encoded|, 4), [], []);
    LayoutStart(encoded, true);
    var offset: nat, posOffset: nat := 0, 0;
    var k := 0;
    while k < |encoded|
      invariant 0 <= k <= |encoded| && files == Layout(encoded, k, true)
      invariant offset == |files.postings| && posOffset == |files.positions|
    {
      var c := encoded[k];
      RecordIs(encoded, k, true, offset, posOffset);
      var record :=
        if c.places != [] then TokenRecord(c.token, offset, |c.postings|, c.docFreq, posOffset, |c.places|)
        else TokenRecord(c.token, offset, |c.postings|, c.docFreq, 0, 0);
      files := Append(files, record, c.postings, c.places);
      offset := offset + |c.postings|;
      posOffset := posOffset + |c.places|;
      k := k + 1;
    }
  }

  /** The writer of deltas and compaction: one pass. */
  method WriteTokenIndex(postings: seq<TokenEntry>) returns (files: TokenFiles)
    requires AllStorable(postings)
    ensures files == TokenFilesOf(postings, false)
  {
    hide *;
    FilesAre(postings, false);
    ghost var all := CodeAll(postings);
    files := TokenFiles(LittleEndian(|postings|, 4), [], []);
    LayoutStart(all, false);
    var offset: nat, posOffset: nat := 0, 0;
    var k := 0;
    while k < |postings|
      invariant 0 <= k <= |postings| && files == Layout(all, k, false)
      invariant offset == |files.postings| && posOffset == |files.positions|
    {
      CodeAt(postings, k);
      var c := Encode(postings[k]);
      RecordIs(all, k, false, offset, posOffset);
      var record := TokenRecord(c.token, offset, |c.postings|, c.docFreq, posOffset, |c.places|);
      files := Append(files, record, c.postings, c.places);
      offset := offset + |c.postings|;
      posOffset := posOffset + |c.places|;
      k := k + 1;
    }
  }

  // ------------------------------------------------------------------ reading

  datatype ReadRecord = ReadRecord(record: TokenRecord, next: nat)

  function ReadTokenRecord(b: seq<Byte>, pos: nat): (r: Option<ReadRecord>)
    ensures r.Some? ==> r.value.next <= |b|
  {
    if pos + 2 > |b| then None
    else
      var start := pos + 2 + NumberAt(b, pos, 2);
      if start + 28 > |b| then None
      else Some(ReadRecord(
        TokenRecord(
          FromUtf8Lossy(b[pos + 2..start]), NumberAt(b, start, 8), NumberAt(b, start + 8, 4),
          NumberAt(b, start + 12, 4), NumberAt(b, start + 16, 8), NumberAt(b, start + 24, 4)),
        start + 28))
  }

  function ReadTokenRecords(b: seq<Byte>, pos: nat, count: nat): Option<seq<TokenRecord>>
    decreases count
  {
    if count == 0 then Some([])
    else
      match ReadTokenRecord(b, pos)
      case None => None
      case Some(r) => After([r.record], ReadTokenRecords(b, r.next, count - 1))
  }

  function ParseTokenDict(b: seq<Byte>): Option<seq<TokenRecord>> {
    if |b| < 4 then None else ReadTokenRecords(b, 4, NumberAt(b, 0, 4))
  }

  method ReadTokenDict(b: seq<Byte>) returns (r: Option<seq<TokenRecord>>)
    ensures r == ParseTokenDict(b)
  {
    if |b| < 4 {
      return None;
    }
    hide *;
    var count := NumberAt(b, 0, 4);
    var records: seq<TokenRecord> := [];
    var pos, i := 4, 0;
    AfterNone(ReadTokenRecords(b, 4, count));
    assert ParseTokenDict(b) == ReadTokenRecords(b, 4, count) by { ParsedFrom(b); }
    while i < count
      invariant 0 <= i <= count
      invariant ParseTokenDict(b) == After(records, ReadTokenRecords(b, pos, count - i))
    {
      var one := ReadTokenRecord(b, pos);
      ReadStep(b, pos, count - i);
      if one.None? {
        NothingAfter(records);
        return None;
      }
      AfterOne(records, one.value.record, ReadTokenRecords(b, one.value.next, count - i - 1));
      records := records + [one.value.record];
      pos := one.value.next;
      i := i + 1;
    }
    ReadEnd(b, pos);
    EmptyAfter(records);
    r := Some(records);
  }

  lemma ParsedFrom(b: seq<Byte>)
    requires |b| >= 4
    ensures ParseTokenDict(b) == ReadTokenRecords(b, 4, NumberAt(b, 0, 4))
  {
    hide ReadTokenRecords, NumberAt;
  }

  lemma ReadStep(b: seq<Byte>, pos: nat, count: nat)
    requires count > 0
    ensures match ReadTokenRecord(b, pos)
            case None => ReadTokenRecords(b, pos, count) == None
            case Some(r) => ReadTokenRecords(b, pos, count) == After([r.record], ReadTokenRecords(b, r.next, count - 1))
  {
    hide ReadTokenRecord, After;
  }

  lemma ReadEnd(b: seq<Byte>, pos: nat)
    ensures ReadTokenRecords(b, pos, 0) == Some([])
  {
  }

  lemma NothingAfter<T>(head: seq<T>)
    ensures After(head, None) == None
  {
  }

  lemma EmptyAfter<T>(head: seq<T>)
    ensures After(head, Some([])) == Some(head)
  {
    assert head + [] == head;
  }

  predicate RecordFits(r: TokenRecord) {
    && |Utf8(r.token)| < Pow256(2)
    && r.offset < Pow256(8) && r.length < Pow256(4) && r.docFreq < Pow256(4)
    && r.posOffset < Pow256(8) && r.posLength < Pow256(4)
  }

  lemma TailHeld(r: TokenRecord, b: seq<Byte>, pos: nat)
    requires RecordFits(r) && Holds(b, pos, RecordTail(r))
    ensures pos + 28 <= |b|
    ensures NumberAt(b, pos, 8) == r.offset && NumberAt(b, pos + 8, 4) == r.length
    ensures NumberAt(b, pos + 12, 4) == r.docFreq
    ensures NumberAt(b, pos + 16, 8) == r.posOffset && NumberAt(b, pos + 24, 4) == r.posLength
  {
    var v, w, x, y, z := LittleEndian(r.offset, 8), LittleEndian(r.length, 4), LittleEndian(r.docFreq, 4),
                         LittleEndian(r.posOffset, 8), LittleEndian(r.posLength, 4);
    hide Holds, LittleEndian, NumberAt, Pow256, Utf8;
    HoldsParts(b, pos, v + w + x + y, z);
    HoldsParts(b, pos, v + w + x, y);
    HoldsParts(b, pos, v + w, x);
    HoldsParts(b, pos, v, w);
    NumberHeld(b, pos, r.offset, 8);
    NumberHeld(b, pos + 8, r.length, 4);
    NumberHeld(b, pos + 12, r.docFreq, 4);
    NumberHeld(b, pos + 16, r.posOffset, 8);
    NumberHeld(b, pos + 24, r.posLength, 4);
  }

  lemma RecordRead(b: seq<Byte>, pos: nat, text: seq<Byte>)
    requires pos + 2 <= |b| && NumberAt(b, pos, 2) == |text|
    requires pos + 2 + |text| + 28 <= |b| && b[pos + 2..pos + 2 + |text|] == text
    ensures var start := pos + 2 + |text|;
            ReadTokenRecord(b, pos) == Some(ReadRecord(
              TokenRecord(
                FromUtf8Lossy(text), NumberAt(b, start, 8), NumberAt(b, start + 8, 4),
                NumberAt(b, start + 12, 4), NumberAt(b, start + 16, 8), NumberAt(b, start + 24, 4)),
              start + 28))
  {
    hide NumberAt, FromUtf8Lossy;
  }

  lemma RecordParts(r: TokenRecord, b: seq<Byte>, pos: nat)
    requires Holds(b, pos, RecordBytes(r))
    ensures var text := Utf8(r.token);
            && Holds(b, pos, LittleEndian(|text|, 2)) && Holds(b, pos + 2 + |text|, RecordTail(r))
            && pos + |RecordBytes(r)| == pos + 2 + |text| + 28 <= |b| && b[pos + 2..pos + 2 + |text|] == text
  {
    var size, text := LittleEndian(|Utf8(r.token)|, 2), Utf8(r.token);
    hide Utf8, RecordTail, LittleEndian;
    HoldsParts(b, pos, size, text + RecordTail(r));
    HoldsParts(b, pos + 2, text, RecordTail(r));
  }

  lemma TokenFits(r: TokenRecord)
    requires RecordFits(r)
    ensures |Utf8(r.token)| < Pow256(2)
  {
    hide Utf8, Pow256;
  }

  lemma RecordHeld(r: TokenRecord, b: seq<Byte>, pos: nat)
    requires RecordFits(r) && Holds(b, pos, RecordBytes(r))
    ensures ReadTokenRecord(b, pos) == Some(ReadRecord(r, pos + |RecordBytes(r)|))
  {
    hide *;
    var text := Utf8(r.token);
    TokenFits(r);
    RecordParts(r, b, pos);
    NumberHeld(b, pos, |text|, 2);
    TailHeld(r, b, pos + 2 + |text|);
    LossyRoundTrip(r.token);
    RecordRead(b, pos, text);
  }

  lemma {:induction false} RecordsHeld(rs: seq<TokenRecord>, b: seq<Byte>, pos: nat)
    requires forall k :: 0 <= k < |rs| ==> RecordFits(rs[k])
    requires Holds(b, pos, Records(rs))
    ensures ReadTokenRecords(b, pos, |rs|) == Some(rs)
    decreases |rs|
  {
    hide *;
    if rs == [] {
      NoRecords(b, pos);
    } else {
      RecordsSplit(rs);
      HoldsParts(b, pos, RecordBytes(rs[0]), Records(rs[1..]));
      var next := pos + |RecordBytes(rs[0])|;
      RecordHeld(rs[0], b, pos);
      RecordsHeld(rs[1..], b, next);
      FirstRecord(b, pos, rs[0], next, rs[1..]);
      assert rs == [rs[0]] + rs[1..];
    }
  }

  lemma NoRecords(b: seq<Byte>, pos: nat)
    ensures ReadTokenRecords(b, pos, 0) == Some([])
  {
  }

  lemma RecordsSplit(rs: seq<TokenRecord>)
    requires rs != []
    ensures Records(rs) == RecordBytes(rs[0]) + Records(rs[1..])
  {
    hide RecordBytes;
  }

  lemma FirstRecord(b: seq<Byte>, pos: nat, r: TokenRecord, next: nat, rest: seq<TokenRecord>)
    requires ReadTokenRecord(b, pos) == Some(ReadRecord(r, next)) && ReadTokenRecords(b, next, |rest|) == Some(rest)
    ensures ReadTokenRecords(b, pos, |rest| + 1) == Some([r] + rest)
  {
    hide ReadTokenRecord;
  }

  /** Every length, offset and count fits its field; a token's length has two bytes. */
  ghost predicate TokensFit(coded: seq<Coded>, flat: bool) {
    |coded| < Pow256(4) && forall k :: 0 <= k < |coded| ==> RecordFits(RecordOf(coded, k, flat))
  }

  lemma TokenDictRoundTrip(coded: seq<Coded>, flat: bool)
    requires TokensFit(coded, flat)
    ensures ParseTokenDict(Layout(coded, |coded|, flat).dict) == Some(RecordsOf(coded, |coded|, flat))
  {
    var rs := RecordsOf(coded, |coded|, flat);
    var dict := Layout(coded, |coded|, flat).dict;
    assert Holds(dict, 0, LittleEndian(|coded|, 4) + Records(rs));
    HoldsParts(dict, 0, LittleEndian(|coded|, 4), Records(rs));
    hide LittleEndian, Holds, Records, ReadTokenRecords, NumberAt, RecordFits, Pow256, RecordOf;
    NumberHeld(dict, 0, |coded|, 4);
    RecordsHeld(rs, dict, 4);
  }

  // ------------------------------------------------------------------ lookups

  function FindToken(records: seq<TokenRecord>, token: Token): (r: Option<TokenRecord>)
    ensures r.Some? ==> r.value in records && r.value.token == token
    ensures r.None? ==> forall e :: e in records ==> e.token != token
  {
    if records == [] then None
    else if records[|records| - 1].token == token then Some(records[|records| - 1])
    else FindToken(records[..|records| - 1], token)
  }

  ghost predicate TokensRise(records: seq<TokenRecord>) {
    forall i, j :: 0 <= i < j < |records| ==> StrictlyBefore(records[i].token, records[j].token)
  }

  lemma FoundToken(records: seq<TokenRecord>, k: nat)
    requires TokensRise(records) && k < |records|
    ensures FindToken(records, records[k].token) == Some(records[k])
  {
    var found := FindToken(records, records[k].token);
    hide FindToken, Before;
    assert records[k] in records;
    var j :| 0 <= j < |records| && records[j] == found.value;
    assert j == k;
  }

  /** `binary_search_by` on the token. */
  method LookupToken(records: seq<TokenRecord>, token: Token) returns (r: Option<TokenRecord>)
    requires TokensRise(records)
    ensures r == FindToken(records, token)
  {
    hide Before, FindToken;
    var keys := seq(|records|, i requires 0 <= i < |records| => records[i].token);
    BeforeIsOrder();
    assert SortedBy(Before, keys);
    var found, at := BinarySearch(Before, keys, token);
    if found {
      assert keys[at] == records[at].token;
      BeforeBoth(keys[at], token);
      FoundToken(records, at);
      return Some(records[at]);
    }
    forall i | 0 <= i < |records|
      ensures records[i].token != token
    {
      assert keys[i] == records[i].token;
      BeforeSelf(token);
      assert if i < at then !Before(token, keys[i]) else !Before(keys[i], token);
    }
    r := None;
  }

  lemma {:induction false} BeforeSelf(p: string)
    ensures Before(p, p)
  {
    if p != "" {
      BeforeSelf(p[1..]);
    }
  }

  function TokenDocsAt(files: TokenFiles, token: Token): Option<set<U32>> {
    match ParseTokenDict(files.dict)
    case None => None
    case Some(records) =>
      match FindToken(records, token)
      case None => Some({})
      case Some(r) => Some(SliceDocs(files.postings, r.offset, r.length))
  }

  /** Positions by document: a zero length, or a slice out of bounds, is no position data. */
  function SlicePlaces(positions: seq<Byte>, offset: nat, length: nat, filter: Option<set<U32>>): Option<seq<Entry>> {
    if length == 0 || offset + length > |positions| then None
    else
      var b := positions[offset..offset + length];
      match filter
      case None => Some(DecodePositions(b, 0, 0))
      case Some(f) => Some(if f == {} then [] else DecodeFiltered(b, 0, 0, f, Max(f).value))
  }

  function TokenPlacesAt(files: TokenFiles, token: Token, filter: Option<set<U32>>): Option<seq<Entry>> {
    match ParseTokenDict(files.dict)
    case None => None
    case Some(records) =>
      match FindToken(records, token)
      case None => None
      case Some(r) => SlicePlaces(files.positions, r.posOffset, r.posLength, filter)
  }

  method GetTokenDocs(records: seq<TokenRecord>, postings: seq<Byte>, token: Token) returns (docs: set<U32>)
    requires TokensRise(records)
    ensures docs ==
            match FindToken(records, token) { case None => {} case Some(r) => SliceDocs(postings, r.offset, r.length) }
  {
    hide TokensRise, FindToken;
    var entry := LookupToken(records, token);
    if entry.Some? && entry.value.offset + entry.value.length <= |postings| {
      docs := DeltaDecodeBitmap(postings[entry.value.offset..entry.value.offset + entry.value.length]);
    } else {
      docs := {};
    }
  }

  method GetTokenPositions(records: seq<TokenRecord>, positions: seq<Byte>, token: Token, filter: Option<set<U32>>)
    returns (r: Option<seq<Entry>>)
    requires TokensRise(records)
    ensures var e := FindToken(records, token);
            r == if e.None? then None else SlicePlaces(positions, e.value.posOffset, e.value.posLength, filter)
  {
    hide TokensRise, FindToken;
    var entry := LookupToken(records, token);
    if entry.None? || entry.value.posLength == 0 || entry.value.posOffset + entry.value.posLength > |positions| {
      return None;
    }
    var b := positions[entry.value.posOffset..entry.value.posOffset + entry.value.posLength];
    var entries;
    match filter {
      case None => entries := DecodePositionPostings(b);
      case Some(f) => entries := DecodePositionPostingsFiltered(b, f);
    }
    r := Some(entries);
  }

  // ---------------------------------------------------------------- round trip

  lemma {:induction false} PostingsHeld(coded: seq<Coded>, n: nat, k: nat)
    requires k < n <= |coded|
    ensures Holds(PostingsUpTo(coded, n), |PostingsUpTo(coded, k)|, coded[k].postings)
    ensures Holds(PlacesUpTo(coded, n), |PlacesUpTo(coded, k)|, coded[k].places)
  {
    if k < n - 1 {
      PostingsHeld(coded, n - 1, k);
      HeldLonger(PostingsUpTo(coded, n - 1), coded[n - 1].postings, |PostingsUpTo(coded, k)|, coded[k].postings);
      HeldLonger(PlacesUpTo(coded, n - 1), coded[n - 1].places, |PlacesUpTo(coded, k)|, coded[k].places);
      hide Holds;
    }
  }

  lemma PlacesDecode(places: seq<DocPlaces>, b: seq<Byte>, pos: nat)
    requires PlacesInU32(places) && Encodable(0, ToEntries(places)) && places != [] && Holds(b, pos, PlaceBytes(places))
    ensures SlicePlaces(b, pos, |PlaceBytes(places)|, None) == Some(ToEntries(places))
    ensures forall f :: SlicePlaces(b, pos, |PlaceBytes(places)|, Some(f)) == Some(Retain(ToEntries(places), f))
  {
    var bytes := PlaceBytes(places);
    PositionsRoundTrip(ToEntries(places), 0, bytes, 0);
    WellFormedSkips(bytes, 0, 0);
    assert b[pos..pos + |bytes|] == bytes;
    hide PlaceBytes, Encodable, PlacesInU32, ToEntries, Skippable, WellFormed;
    forall f
      ensures SlicePlaces(b, pos, |bytes|, Some(f)) == Some(Retain(ToEntries(places), f))
    {
      if f == {} {
        RetainNone(ToEntries(places));
      } else {
        FilteredIsRetain(bytes, 0, 0, f, Max(f).value);
      }
    }
  }

  lemma {:induction false} RetainNone(entries: seq<Entry>)
    ensures Retain(entries, {}) == []
    decreases |entries|
  {
    if entries != [] {
      RetainNone(entries[1..]);
    }
  }

  /** What is found again of one entry. */
  lemma EntryReadBack(entries: seq<TokenEntry>, k: nat, flat: bool)
    requires AllStorable(entries) && k < |entries| && EntryStorable(entries[k]) && |CodeAll(entries)| == |entries|
    ensures var r, files := RecordOf(CodeAll(entries), k, flat), TokenFilesOf(entries, flat);
            && r.token == entries[k].token && r.docFreq == |Canonical(entries[k].docs)|
            && SliceDocs(files.postings, r.offset, r.length) == Elements(entries[k].docs)
            && (entries[k].places == [] ==>
                forall f :: SlicePlaces(files.positions, r.posOffset, r.posLength, f) == None)
            && (entries[k].places != [] ==>
                 && SlicePlaces(files.positions, r.posOffset, r.posLength, None) == Some(ToEntries(entries[k].places))
                 && forall f :: SlicePlaces(files.positions, r.posOffset, r.posLength, Some(f)) ==
                                Some(Retain(ToEntries(entries[k].places), f)))
  {
    var coded, e := CodeAll(entries), entries[k];
    CodeAt(entries, k);
    PostingsHeld(coded, |coded|, k);
    SliceHeld(Canonical(e.docs), PostingsUpTo(coded, |coded|), |PostingsUpTo(coded, k)|);
    if e.places != [] {
      PlacesDecode(e.places, PlacesUpTo(coded, |coded|), |PlacesUpTo(coded, k)|);
    }
    hide Holds, SliceDocs, PlaceBytes, PostingBytes, Canonical, Encodable, InU32, RecordsOf, Records, LittleEndian,
        ToEntries, Retain;
    assert Elements(Canonical(e.docs)) == Elements(e.docs);
  }
}
