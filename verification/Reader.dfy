/**
  Queries on the postings (src/index/reader.rs): documents by trigrams, by token
  and by phrase, over however many segments there are. Bitmaps are sets.
*/
module Reader {
  import opened Prelude
  import opened Text
  import opened Sorting
  import opened Index
  import opened Bloom

  type Phrase = seq<(Token, nat)>  // tokens with their word positions in the query

  /** The segments that could be opened. */
  function Opened(idx: Index): set<SegmentId> {
    set s | s in Active(idx) && s in idx.segments
  }

  function ValidIds(idx: Index): set<DocId> {
    set i | 0 <= i < |idx.docs| && idx.docs[i].IsValid() :: idx.docs[i].docId
  }

  // ------------------------------------------------------------------ trigrams

  predicate HasAll(seg: Segment, ts: seq<Trigram>, d: DocId) {
    forall k :: 0 <= k < |ts| ==> Posts(seg.trigrams, ts[k], d)
  }

  /** The documents of a segment that all lists name. */
  function AllIn(seg: Segment, ts: seq<Trigram>): set<DocId>
    requires ts != []
  {
    set d | d in Get(seg.trigrams, ts[0]) && HasAll(seg, ts, d)
  }

  function UnionOver(idx: Index, segs: set<SegmentId>, ts: seq<Trigram>): set<DocId>
    requires segs <= idx.segments.Keys && ts != []
  {
    set s, d | s in segs && d in AllIn(idx.segments[s], ts) :: d
  }

  /** What narrowing by trigrams leaves. */
  function TrigramDocs(idx: Index, ts: seq<Trigram>): set<DocId> {
    if ts == [] then ValidIds(idx) else UnionOver(idx, Opened(idx), ts)
  }

  function Frequency(seg: Segment, t: Trigram): nat {
    |Get(seg.trigrams, t)|
  }

  /** Rarest first. */
  function ByFrequency(seg: Segment, ts: seq<Trigram>): (r: seq<Trigram>)
    ensures multiset(r) == multiset(ts)
  {
    SortBy((t: Trigram, u: Trigram) => Frequency(seg, t) <= Frequency(seg, u), ts)
  }

  lemma OrderIrrelevant(seg: Segment, ts: seq<Trigram>, us: seq<Trigram>, d: DocId)
    requires multiset(ts) == multiset(us)
    ensures HasAll(seg, ts, d) <==> HasAll(seg, us, d)
  {
    forall k | 0 <= k < |ts|
      ensures ts[k] in us
    {
      assert ts[k] in multiset(us);
    }
    forall k | 0 <= k < |us|
      ensures us[k] in ts
    {
      assert us[k] in multiset(ts);
    }
  }

  lemma SameAllIn(seg: Segment, ts: seq<Trigram>, us: seq<Trigram>)
    requires multiset(ts) == multiset(us) && ts != [] && us != []
    ensures AllIn(seg, ts) == AllIn(seg, us)
  {
    forall d: DocId
      ensures d in AllIn(seg, ts) <==> d in AllIn(seg, us)
    {
      OrderIrrelevant(seg, ts, us, d);
      assert HasAll(seg, ts, d) ==> Posts(seg.trigrams, ts[0], d);
      assert HasAll(seg, us, d) ==> Posts(seg.trigrams, us[0], d);
    }
  }

  /** A filter that answers for the segment: every trigram with postings was inserted. */
  ghost predicate Covers(filter: BloomFilter, seg: Segment)
    reads filter.bits
  {
    filter.Valid() && forall t :: t in seg.trigrams && seg.trigrams[t] != [] ==> filter.Signature(t) <= filter.Value()
  }

  /** `SegmentReader::might_contain_trigrams`: without a filter the answer is yes. */
  method MightContainTrigrams(seg: Segment, filter: Option<BloomFilter>, ts: seq<Trigram>) returns (r: bool)
    requires ts != [] && (filter.Some? ==> Covers(filter.value, seg))
    ensures !r ==> AllIn(seg, ts) == {}
  {
    r := true;
    if filter.Some? {
      r := filter.value.MightContainAll(ts);
      if !r {
        ghost var k :| 0 <= k < |ts| && !(filter.value.Signature(ts[k]) <= filter.value.Value());
        assert forall d: DocId :: HasAll(seg, ts, d) ==> Posts(seg.trigrams, ts[k], d);
      }
    }
  }

  /** Intersects the rarest lists first and stops when nothing is left. */
  method IntersectInSegment(seg: Segment, ts: seq<Trigram>) returns (result: set<DocId>)
    requires ts != []
    ensures result == AllIn(seg, ts)
  {
    var sorted := ByFrequency(seg, ts);
    assert |multiset(sorted)| == |multiset(ts)|;
    SameAllIn(seg, ts, sorted);
    hide ByFrequency;
    result := Elements(Get(seg.trigrams, sorted[0]));
    var i := 1;
    while i < |sorted|
      invariant 1 <= i <= |sorted| && result == AllIn(seg, sorted[..i])
    {
      if result == {} {
        NothingLeft(seg, sorted, i);
        return;
      }
      OneMoreTrigram(seg, sorted, i);
      result := result * Elements(Get(seg.trigrams, sorted[i]));
      i := i + 1;
    }
    assert sorted[..i] == sorted;
  }

  lemma OneMoreTrigram(seg: Segment, ts: seq<Trigram>, i: nat)
    requires 1 <= i < |ts|
    ensures AllIn(seg, ts[..i + 1]) == AllIn(seg, ts[..i]) * Elements(Get(seg.trigrams, ts[i]))
  {
    forall d: DocId
      ensures HasAll(seg, ts[..i + 1], d) <==> HasAll(seg, ts[..i], d) && d in Get(seg.trigrams, ts[i])
    {
      assert forall k :: 0 <= k < i ==> ts[..i + 1][k] == ts[..i][k];
      assert ts[..i + 1][i] == ts[i];
    }
  }

  lemma NothingLeft(seg: Segment, ts: seq<Trigram>, i: nat)
    requires 1 <= i <= |ts| && AllIn(seg, ts[..i]) == {}
    ensures AllIn(seg, ts) == {}
  {
    forall d | d in AllIn(seg, ts)
      ensures d in AllIn(seg, ts[..i])
    {
      assert forall k :: 0 <= k < i ==> ts[..i][k] == ts[k];
    }
  }

  method TrigramDocsInSegment(seg: Segment, filter: Option<BloomFilter>, ts: seq<Trigram>) returns (result: set<DocId>)
    requires ts != [] && (filter.Some? ==> Covers(filter.value, seg))
    ensures result == AllIn(seg, ts)
  {
    var might := MightContainTrigrams(seg, filter, ts);
    if !might {
      return {};
    }
    result := IntersectInSegment(seg, ts);
  }

  /** Segments answer in any order, each behind its bloom filter; the union is exact all the same. */
  method GetTrigramDocsWithBloom(idx: Index, filters: map<SegmentId, BloomFilter>, ts: seq<Trigram>)
      returns (result: set<DocId>)
    requires forall s :: s in filters && s in idx.segments ==> Covers(filters[s], idx.segments[s])
    ensures result == TrigramDocs(idx, ts)
  {
    if ts == [] {
      return ValidIds(idx);
    }
    result := {};
    var todo := Opened(idx);
    while todo != {}
      invariant todo <= Opened(idx) && result == UnionOver(idx, Opened(idx) - todo, ts)
      decreases |todo|
    {
      var s :| s in todo;
      var docs := TrigramDocsInSegment(idx.segments[s], if s in filters then Some(filters[s]) else None, ts);
      assert Opened(idx) - (todo - {s}) == (Opened(idx) - todo) + {s};
      result := result + docs;
      todo := todo - {s};
    }
    assert Opened(idx) - todo == Opened(idx);
  }

  // ------------------------------------------------- what the answers say of docs

  /** A document of the table, by id. */
  function GetDocument(idx: Index, d: DocId): (r: Option<Document>)
    ensures r.Some? ==> r.value in idx.docs && r.value.docId == d
  {
    FindId(idx.docs, d)
  }

  function FindId(docs: seq<Document>, d: DocId): (r: Option<Document>)
    ensures r.Some? ==> r.value in docs && r.value.docId == d
    ensures r.None? ==> forall i :: 0 <= i < |docs| ==> docs[i].docId != d
  {
    if docs == [] then None
    else if docs[|docs| - 1].docId == d then Some(docs[|docs| - 1])
    else FindId(docs[..|docs| - 1], d)
  }

  lemma GetDocumentIs(idx: Index, i: nat)
    requires AscendingIds(idx.docs) && i < |idx.docs|
    ensures GetDocument(idx, idx.docs[i].docId) == Some(idx.docs[i])
  {
    var doc := GetDocument(idx, idx.docs[i].docId).value;
    var j :| 0 <= j < |idx.docs| && idx.docs[j] == doc;
  }

  /** Each document lives in one segment: only that one can name it. */
  lemma OneSegment(idx: Index, s: SegmentId, d: DocId)
    requires Valid(idx) && s in Opened(idx) && Mentions(idx.segments[s], d)
    ensures GetDocument(idx, d).Some? && GetDocument(idx, d).value.segmentId == s
  {
    assert SegmentSound(idx, s);
    hide Mentions, Sorted;
    var i :| 0 <= i < |idx.docs| && idx.docs[i].docId == d && idx.docs[i].segmentId == s;
    GetDocumentIs(idx, i);
  }

  lemma MentionedByTrigram(seg: Segment, t: Trigram, d: DocId)
    requires Posts(seg.trigrams, t, d)
    ensures Mentions(seg, d) && t in TrigramsIn(seg, d)
  {
    assert t in KeysWith(seg.trigrams, d);
  }

  /** However the documents are divided into segments, the answer is the documents that have all the trigrams. */
  lemma TrigramDocsExact(idx: Index, ts: seq<Trigram>, d: DocId)
    requires Valid(idx) && ts != []
    ensures d in TrigramDocs(idx, ts) <==>
            GetDocument(idx, d).Some? && GetDocument(idx, d).value.segmentId in Active(idx)
            && Elements(ts) <= TrigramsOf(idx, GetDocument(idx, d).value)
  {
    hide Valid, GetDocument, Mentions;
    if d in TrigramDocs(idx, ts) {
      var s :| s in Opened(idx) && d in AllIn(idx.segments[s], ts);
      MentionedByTrigram(idx.segments[s], ts[0], d);
      OneSegment(idx, s, d);
      forall k | 0 <= k < |ts|
        ensures ts[k] in TrigramsIn(idx.segments[s], d)
      {
        assert Posts(idx.segments[s].trigrams, ts[k], d);
      }
    }
    if GetDocument(idx, d).Some? {
      var doc := GetDocument(idx, d).value;
      if doc.segmentId in Active(idx) && Elements(ts) <= TrigramsOf(idx, doc) {
        assert ts[0] in Elements(ts);
        assert doc.docId == d by { IdOf(idx, d); }
        var seg := idx.segments[doc.segmentId];
        forall k | 0 <= k < |ts|
          ensures Posts(seg.trigrams, ts[k], d)
        {
          assert ts[k] in Elements(ts);
        }
        assert d in AllIn(seg, ts);
      }
    }
  }

  lemma IdOf(idx: Index, d: DocId)
    requires GetDocument(idx, d).Some?
    ensures GetDocument(idx, d).value.docId == d
  {
  }

  // -------------------------------------------------------------------- tokens

  function TokenDocs(idx: Index, token: Token): set<DocId> {
    set s, d | s in Opened(idx) && d in Get(idx.segments[s].tokens, ToLower(token)) :: d
  }

  function TokenDocsContaining(idx: Index, needle: Token): set<DocId> {
    set s, t, d | s in Opened(idx) && t in idx.segments[s].tokens
      && Contains(t, ToLower(needle)) && d in idx.segments[s].tokens[t] :: d
  }

  function TokensOf(idx: Index, doc: Document): set<Token> {
    Recall(idx, doc).data.tokens
  }

  lemma MentionedByToken(seg: Segment, t: Token, d: DocId)
    requires Posts(seg.tokens, t, d)
    ensures Mentions(seg, d) && t in DataIn(seg, d).tokens
  {
    assert t in KeysWith(seg.tokens, d);
  }

  lemma TokensOfIs(idx: Index, doc: Document, t: Token)
    ensures t in TokensOf(idx, doc) <==>
            doc.segmentId in idx.segments && Posts(idx.segments[doc.segmentId].tokens, t, doc.docId)
  {
  }

  lemma TokenDocsExact(idx: Index, token: Token, d: DocId)
    requires Valid(idx)
    ensures d in TokenDocs(idx, token) <==>
            GetDocument(idx, d).Some? && GetDocument(idx, d).value.segmentId in Active(idx)
            && ToLower(token) in TokensOf(idx, GetDocument(idx, d).value)
  {
    hide Valid, GetDocument, Mentions, ToLower;
    if d in TokenDocs(idx, token) {
      var s :| s in Opened(idx) && d in Get(idx.segments[s].tokens, ToLower(token));
      MentionedByToken(idx.segments[s], ToLower(token), d);
      OneSegment(idx, s, d);
    }
    if GetDocument(idx, d).Some? {
      IdOf(idx, d);
      var doc := GetDocument(idx, d).value;
      TokensOfIs(idx, doc, ToLower(token));
      if doc.segmentId in Active(idx) && ToLower(token) in TokensOf(idx, doc) {
        assert doc.segmentId in Opened(idx) && d in Get(idx.segments[doc.segmentId].tokens, ToLower(token));
      }
    }
  }

  lemma TokenDocsContainingExact(idx: Index, needle: Token, d: DocId)
    requires Valid(idx)
    ensures d in TokenDocsContaining(idx, needle) <==>
            GetDocument(idx, d).Some? && GetDocument(idx, d).value.segmentId in Active(idx)
            && exists t :: t in TokensOf(idx, GetDocument(idx, d).value) && Contains(t, ToLower(needle))
  {
    hide Valid, GetDocument, Mentions, ToLower, Contains;
    if d in TokenDocsContaining(idx, needle) {
      var s, t :| s in Opened(idx) && t in idx.segments[s].tokens
        && Contains(t, ToLower(needle)) && d in idx.segments[s].tokens[t];
      MentionedByToken(idx.segments[s], t, d);
      OneSegment(idx, s, d);
    }
    if GetDocument(idx, d).Some? {
      IdOf(idx, d);
      var doc := GetDocument(idx, d).value;
      if t :| t in TokensOf(idx, doc) && doc.segmentId in Active(idx) && Contains(t, ToLower(needle)) {
        assert Posts(idx.segments[doc.segmentId].tokens, t, d);
      }
    }
  }

  // ------------------------------------------------------------------- phrases

  /** Word `k` of the phrase stands at its place when the phrase starts at `start`. */
  predicate WordAt(m: map<Token, seq<nat>>, phrase: Phrase, start: nat, k: nat)
    requires k < |phrase|
  {
    var t := ToLower(phrase[k].0);
    t in m && start + phrase[k].1 - phrase[0].1 in m[t]
  }

  predicate PhraseAt(m: map<Token, seq<nat>>, phrase: Phrase, start: nat) {
    forall k :: 0 <= k < |phrase| ==> WordAt(m, phrase, start, k)
  }

  /** A document whose positions hold the words of the phrase at the phrase's distances. */
  ghost predicate HasPhrase(m: map<Token, seq<nat>>, phrase: Phrase) {
    exists start :: PhraseAt(m, phrase, start)
  }

  ghost predicate PhraseIn(seg: Segment, phrase: Phrase, d: DocId) {
    HasPhrase(PositionsWith(seg.positions, d), phrase)
  }

  /** Positions within each list grow, as the tokenizer emits them. */
  ghost predicate PositionsSorted(seg: Segment) {
    forall t, d :: t in seg.positions && d in seg.positions[t] ==> Ascending(seg.positions[t][d])
  }

  method HasPosition(s: seq<nat>, x: nat) returns (found: bool)
    requires Ascending(s)
    ensures found <==> x in s
  {
    var le := (a: int, b: int) => a <= b;
    var positions: seq<int> := s;
    assert TotalOrder(le) && SortedBy(le, positions);
    var at;
    found, at := BinarySearch(le, positions, x);
    if found {
      assert s[at] == x;
    } else {
      forall i | 0 <= i < |s|
        ensures s[i] != x
      {
        assert if i < at then !le(x, positions[i]) else !le(positions[i], x);
      }
    }
  }

  /** The position lists of a token, for candidates only; None when the segment has none. */
  function GetTokenPositions(seg: Segment, token: Token, candidates: Option<set<DocId>>): Option<map<DocId, seq<nat>>> {
    if token !in seg.positions then None
    else
      var row := seg.positions[token];
      Some(if candidates.Some? then map d | d in row && d in candidates.value :: row[d] else row)
  }

  /** Whether every later word of the phrase stands at its place after `start`. */
  method CheckStart(seg: Segment, phrase: Phrase, candidates: Option<set<DocId>>, positions: seq<map<DocId, seq<nat>>>,
      d: DocId, start: nat)
    returns (allMatch: bool)
    requires PositionsSorted(seg) && |phrase| >= 2 && |positions| == |phrase|
    requires Loaded(seg, phrase, candidates, positions)
    requires forall k :: 0 <= k < |phrase| ==> phrase[0].1 <= phrase[k].1
    requires candidates.Some? ==> d in candidates.value
    ensures allMatch <==> forall k :: 1 <= k < |phrase| ==> WordAt(PositionsWith(seg.positions, d), phrase, start, k)
  {
    hide ToLower;
    var k := 1;
    while k < |phrase|
      invariant 1 <= k <= |phrase|
      invariant forall j :: 1 <= j < k ==> WordAt(PositionsWith(seg.positions, d), phrase, start, j)
    {
      var expected := start + phrase[k].1 - phrase[0].1;
      var t := ToLower(phrase[k].0);
      assert Some(positions[k]) == GetTokenPositions(seg, t, candidates);
      if d in positions[k] {
        var found := HasPosition(positions[k][d], expected);
        if !found {
          assert !WordAt(PositionsWith(seg.positions, d), phrase, start, k);
          return false;
        }
      } else {
        assert !WordAt(PositionsWith(seg.positions, d), phrase, start, k);
        return false;
      }
      k := k + 1;
    }
    allMatch := true;
  }

  lemma MissingWord(m: map<Token, seq<nat>>, phrase: Phrase, k: nat)
    requires k < |phrase| && ToLower(phrase[k].0) !in m
    ensures !HasPhrase(m, phrase)
  {
    forall start
      ensures !PhraseAt(m, phrase, start)
    {
      assert !WordAt(m, phrase, start, k);
    }
  }

  lemma StartIsFirst(m: map<Token, seq<nat>>, phrase: Phrase, start: nat)
    requires |phrase| > 0 && PhraseAt(m, phrase, start)
    ensures ToLower(phrase[0].0) in m && start in m[ToLower(phrase[0].0)]
  {
    assert WordAt(m, phrase, start, 0);
  }

  /** The position lists of every word of the phrase. */
  ghost predicate Loaded(seg: Segment, phrase: Phrase, candidates: Option<set<DocId>>,
      positions: seq<map<DocId, seq<nat>>>) {
    && |positions| <= |phrase|
    && forall k :: 0 <= k < |positions| ==>
       Some(positions[k]) == GetTokenPositions(seg, ToLower(phrase[k].0), candidates)
  }

  method LoadPositions(seg: Segment, phrase: Phrase, candidates: Option<set<DocId>>)
      returns (positions: seq<map<DocId, seq<nat>>>)
    ensures Loaded(seg, phrase, candidates, positions)
    ensures |positions| < |phrase| ==> forall d: DocId :: !PhraseIn(seg, phrase, d)
  {
    hide ToLower, PhraseIn;
    positions := [];
    while |positions| < |phrase|
      invariant Loaded(seg, phrase, candidates, positions)
      decreases |phrase| - |positions|
    {
      var row := GetTokenPositions(seg, ToLower(phrase[|positions|].0), candidates);
      if row.None? {
        forall d: DocId
          ensures !PhraseIn(seg, phrase, d)
        {
          NotInSegment(seg, phrase, |positions|, d);
        }
        return;
      }
      positions := positions + [row.value];
    }
  }

  lemma NotInSegment(seg: Segment, phrase: Phrase, k: nat, d: DocId)
    requires k < |phrase| && d !in Row(seg.positions, ToLower(phrase[k].0))
    ensures !PhraseIn(seg, phrase, d)
  {
    MissingWord(PositionsWith(seg.positions, d), phrase, k);
  }

  /** The candidates of a segment that hold the phrase, and no others. */
  method ResolvePhraseInSegment(seg: Segment, phrase: Phrase, candidates: Option<set<DocId>>)
      returns (result: set<DocId>)
    requires PositionsSorted(seg) && |phrase| >= 2
    requires forall k :: 0 <= k < |phrase| ==> phrase[0].1 <= phrase[k].1
    ensures forall d: DocId :: d in result <==> (candidates.Some? ==> d in candidates.value) && PhraseIn(seg, phrase, d)
  {
    hide ToLower, PhraseIn, PositionsSorted;
    result := {};
    var positions := LoadPositions(seg, phrase, candidates);
    if |positions| < |phrase| {
      return;
    }
    var first := positions[0];
    assert Some(first) == GetTokenPositions(seg, ToLower(phrase[0].0), candidates);
    hide Loaded;
    var todo := first.Keys;
    while todo != {}
      invariant todo <= first.Keys && result <= first.Keys - todo
      invariant forall d: DocId :: d in first.Keys - todo ==> (d in result <==> PhraseIn(seg, phrase, d))
      decreases |todo|
    {
      var d :| d in todo;
      var found := PhraseInDoc(seg, phrase, candidates, positions, d);
      if found {
        result := result + {d};
      }
      todo := todo - {d};
    }
    forall d: DocId | d !in first && (candidates.Some? ==> d in candidates.value)
      ensures !PhraseIn(seg, phrase, d)
    {
      NotInSegment(seg, phrase, 0, d);
    }
  }

  /** Tries each position of the first word. */
  method PhraseInDoc(seg: Segment, phrase: Phrase, candidates: Option<set<DocId>>,
      positions: seq<map<DocId, seq<nat>>>, d: DocId)
    returns (found: bool)
    requires PositionsSorted(seg) && |phrase| >= 2 && |positions| == |phrase|
    requires Loaded(seg, phrase, candidates, positions)
    requires forall k :: 0 <= k < |phrase| ==> phrase[0].1 <= phrase[k].1
    requires d in positions[0]
    ensures found <==> PhraseIn(seg, phrase, d)
  {
    hide ToLower;
    var first := positions[0][d];
    ghost var m := PositionsWith(seg.positions, d);
    assert Some(positions[0]) == GetTokenPositions(seg, ToLower(phrase[0].0), candidates);
    assert ToLower(phrase[0].0) in m && m[ToLower(phrase[0].0)] == first;
    var i := 0;
    while i < |first|
      invariant 0 <= i <= |first|
      invariant forall j :: 0 <= j < i ==> !PhraseAt(m, phrase, first[j])
    {
      var allMatch := CheckStart(seg, phrase, candidates, positions, d, first[i]);
      if allMatch {
        assert WordAt(m, phrase, first[i], 0);
        assert PhraseAt(m, phrase, first[i]);
        return true;
      }
      i := i + 1;
    }
    forall start | PhraseAt(m, phrase, start)
      ensures start in first
    {
      StartIsFirst(m, phrase, start);
    }
    found := false;
  }

  /** What the phrase step leaves of the candidates; None when the phrase is a single word. */
  ghost function PhraseDocs(idx: Index, phrase: Phrase, candidates: Option<set<DocId>>): Option<set<DocId>> {
    if |phrase| < 2 then None
    else Some(set d | d in Mentioned(idx, phrase) && (candidates.Some? ==> d in candidates.value)
                      && exists s :: s in Opened(idx) && PhraseIn(idx.segments[s], phrase, d))
  }

  /** Documents with a position of the first word. */
  function Mentioned(idx: Index, phrase: Phrase): set<DocId>
    requires |phrase| > 0
  {
    set s, d | s in Opened(idx) && d in Row(idx.segments[s].positions, ToLower(phrase[0].0)) :: d
  }

  lemma PhraseMentions(idx: Index, s: SegmentId, phrase: Phrase, d: DocId)
    requires |phrase| > 0 && s in Opened(idx) && PhraseIn(idx.segments[s], phrase, d)
    ensures d in Mentioned(idx, phrase) && Mentions(idx.segments[s], d)
  {
    var m := PositionsWith(idx.segments[s].positions, d);
    var start :| PhraseAt(m, phrase, start);
    assert WordAt(m, phrase, start, 0);
    assert ToLower(phrase[0].0) in m.Keys && m.Keys != {};
    assert d in Row(idx.segments[s].positions, ToLower(phrase[0].0));
  }

  method ResolvePhrasePositional(idx: Index, phrase: Phrase, candidates: Option<set<DocId>>)
      returns (result: Option<set<DocId>>)
    requires forall s :: s in idx.segments ==> PositionsSorted(idx.segments[s])
    requires forall k :: 0 <= k < |phrase| ==> phrase[0].1 <= phrase[k].1
    ensures result == PhraseDocs(idx, phrase, candidates)
  {
    if |phrase| < 2 {
      return None;
    }
    hide PhraseIn, PositionsSorted, ToLower, Mentions;
    var docs: set<DocId> := {};
    var todo := Opened(idx);
    while todo != {}
      invariant todo <= Opened(idx)
      invariant forall d: DocId :: d in docs <==>
                  (candidates.Some? ==> d in candidates.value)
                  && exists s :: s in Opened(idx) && s !in todo && PhraseIn(idx.segments[s], phrase, d)
      decreases |todo|
    {
      var s :| s in todo;
      var more := ResolvePhraseInSegment(idx.segments[s], phrase, candidates);
      docs := docs + more;
      todo := todo - {s};
    }
    forall d: DocId, s | s in Opened(idx) && PhraseIn(idx.segments[s], phrase, d)
      ensures d in Mentioned(idx, phrase)
    {
      PhraseMentions(idx, s, phrase, d);
    }
    assert docs == PhraseDocs(idx, phrase, candidates).value;
    result := Some(docs);
  }

  ghost predicate SomeSegmentHas(idx: Index, phrase: Phrase, d: DocId) {
    exists s :: s in Opened(idx) && PhraseIn(idx.segments[s], phrase, d)
  }

  lemma InPhraseDocs(idx: Index, phrase: Phrase, candidates: Option<set<DocId>>, d: DocId)
    requires |phrase| >= 2
    ensures d in PhraseDocs(idx, phrase, candidates).value <==>
            (candidates.Some? ==> d in candidates.value) && SomeSegmentHas(idx, phrase, d)
  {
    hide PhraseIn, Mentions, Mentioned;
    if s :| s in Opened(idx) && PhraseIn(idx.segments[s], phrase, d) {
      PhraseMentions(idx, s, phrase, d);
    }
  }

  /** The phrase step keeps exactly the candidates whose own positions hold the phrase. */
  lemma PhraseDocsExact(idx: Index, phrase: Phrase, candidates: Option<set<DocId>>, d: DocId)
    requires Valid(idx) && |phrase| >= 2
    ensures d in PhraseDocs(idx, phrase, candidates).value <==>
            (candidates.Some? ==> d in candidates.value)
            && GetDocument(idx, d).Some? && GetDocument(idx, d).value.segmentId in Active(idx)
            && HasPhrase(Recall(idx, GetDocument(idx, d).value).data.positions, phrase)
  {
    InPhraseDocs(idx, phrase, candidates, d);
    hide Valid, GetDocument, Mentions, HasPhrase, Mentioned, ToLower, PhraseDocs;
    if SomeSegmentHas(idx, phrase, d) {
      var s :| s in Opened(idx) && PhraseIn(idx.segments[s], phrase, d);
      PhraseMentions(idx, s, phrase, d);
      OneSegment(idx, s, d);
      IdOf(idx, d);
    }
    if GetDocument(idx, d).Some? {
      IdOf(idx, d);
      var doc := GetDocument(idx, d).value;
      NoPhraseInNothing(phrase, d);
      if doc.segmentId in Active(idx) && HasPhrase(Recall(idx, doc).data.positions, phrase) {
        assert doc.segmentId in Opened(idx) && PhraseIn(idx.segments[doc.segmentId], phrase, d);
      }
    }
  }

  lemma NoPhraseInNothing(phrase: Phrase, d: DocId)
    requires |phrase| > 0
    ensures !HasPhrase(DataIn(EMPTY_SEGMENT, d).positions, phrase)
  {
    MissingWord(DataIn(EMPTY_SEGMENT, d).positions, phrase, 0);
  }
}
