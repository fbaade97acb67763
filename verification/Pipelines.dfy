/**
  The two ways to a segment agree: flat lists sorted, grouped and joined in
  lockstep (src/index/writer.rs:227-590) list exactly what inserting every
  posting into sorted maps lists (src/index/writer.rs:953-999).
*/
module Pipelines {
  import opened Prelude
  import opened Sorting
  import opened Text
  import opened Index
  import opened SegmentBuilder
  import opened Grouping
  import opened FlatWriter

  // -------------------------------------------------- what the sorted maps hold

  /** Word positions rise through a file, as the tokenizer counts them. */
  ghost predicate RisingPositions(f: ProcessedFile) {
    forall i, j :: 0 <= i < j < |f.tokenPositions| ==> f.tokenPositions[i].1 < f.tokenPositions[j].1
  }

  ghost predicate AllRising(files: seq<ProcessedFile>) {
    forall i :: 0 <= i < |files| ==> RisingPositions(files[i])
  }

  ghost predicate ListFor(f: ProcessedFile, n: nat, t: Token, positions: seq<nat>)
    requires WellFormedFile(f) && n <= |f.tokenPositions|
  {
    positions != [] && Ascending(positions) && forall p: nat :: p in positions <==> Occurs(f, n, t, p)
  }

  /** The positions grouped under a token are those where it occurs, rising. */
  lemma {:induction false} GroupedRise(f: ProcessedFile, n: nat, t: Token)
    requires WellFormedFile(f) && RisingPositions(f) && n <= |f.tokenPositions|
    ensures t in GroupFirst(f, n) ==> ListFor(f, n, t, GroupFirst(f, n)[t])
    ensures t !in GroupFirst(f, n) ==> forall p: nat :: !Occurs(f, n, t, p)
  {
    if n > 0 {
      var m: nat := n - 1;
      GroupedRise(f, m, t);
      var g, at, last := GroupFirst(f, m), f.tokens[f.tokenPositions[m].0], f.tokenPositions[m].1;
      forall p: nat
        ensures Occurs(f, n, t, p) <==> Occurs(f, m, t, p) || (at == t && last == p)
        ensures Occurs(f, m, t, p) ==> p < last
      {
        OccursStep(f, n, t, p);
      }
      GroupStep(f, n, t);
      hide Occurs, WellFormedFile, RisingPositions, GroupFirst;
      if at == t {
        Pushed(if t in g then g[t] else [], last);
      }
    }
  }

  lemma Pushed(positions: seq<nat>, last: nat)
    requires Ascending(positions) && forall p: nat :: p in positions ==> p < last
    ensures Ascending(positions + [last])
    ensures forall p: nat :: p in positions + [last] <==> p in positions || p == last
  {
    forall i | 0 <= i < |positions|
      ensures positions[i] < last
    {
      assert positions[i] in positions;
    }
  }

  lemma GroupStep(f: ProcessedFile, n: nat, t: Token)
    requires WellFormedFile(f) && 0 < n <= |f.tokenPositions|
    ensures var g, h := GroupFirst(f, n - 1), GroupFirst(f, n);
            if f.tokens[f.tokenPositions[n - 1].0] == t
            then t in h && h[t] == (if t in g then g[t] else []) + [f.tokenPositions[n - 1].1]
            else (t in h <==> t in g) && (t in h ==> h[t] == g[t])
  {
  }

  lemma {:induction false} NoEmptyLists(first: DocId, files: seq<ProcessedFile>, n: nat)
    requires n <= |files| && AllWellFormed(files)
    ensures forall t :: t in BuildFirst(first, files, n).trigrams ==> BuildFirst(first, files, n).trigrams[t] != []
    ensures forall t :: t in BuildFirst(first, files, n).tokens ==> BuildFirst(first, files, n).tokens[t] != []
  {
    if n > 0 {
      NoEmptyLists(first, files, n - 1);
      var s, f, d := BuildFirst(first, files, n - 1), files[n - 1], first + n - 1;
      assert WellFormedFile(f);
      assert BuildFirst(first, files, n) == AddToSegment(s, d, f);
      assert f.trigrams[..|f.trigrams|] == f.trigrams && f.tokens[..|f.tokens|] == f.tokens;
      hide BuildFirst, PushFirst, PlaceFirst;
      forall t | t in PushFirst(s.trigrams, f.trigrams, |f.trigrams|, d)
        ensures PushFirst(s.trigrams, f.trigrams, |f.trigrams|, d)[t] != []
      {
        PushFirstAt(s.trigrams, f.trigrams, |f.trigrams|, d, t);
      }
      forall t | t in PushFirst(s.tokens, f.tokens, |f.tokens|, d)
        ensures PushFirst(s.tokens, f.tokens, |f.tokens|, d)[t] != []
      {
        PushFirstAt(s.tokens, f.tokens, |f.tokens|, d, t);
      }
    }
  }

  lemma SegmentRecalls(first: DocId, files: seq<ProcessedFile>, d: DocId)
    requires AllWellFormed(files)
    ensures var s := BuildSegment(first, files);
            if first <= d < first + |files| then WellFormedFile(files[d - first]) && Recalls(s, d, files[d - first])
            else !Mentions(s, d)
  {
    BuiltFirst(first, files, |files|);
    hide BuildFirst, Recalls, Mentions, WellFormedFile;
    if first <= d < first + |files| {
      assert Recalls(BuildSegment(first, files), first + (d - first), files[d - first]);
    }
  }

  lemma PostsKey<K>(m: Postings<K>, k: K, d: DocId)
    ensures Posts(m, k, d) <==> k in KeysWith(m, d)
  {
  }

  lemma SegmentPosts(first: DocId, files: seq<ProcessedFile>, d: DocId, t: Trigram, u: Token)
    requires AllWellFormed(files)
    ensures Posts(BuildSegment(first, files).trigrams, t, d) <==> (t, d) in TrigramPairs(first, files, |files|)
    ensures Posts(BuildSegment(first, files).tokens, u, d) <==> (u, d) in TokenPairs(first, files, |files|)
  {
    var s := BuildSegment(first, files);
    SegmentRecalls(first, files, d);
    InTrigramPairs(first, files, |files|, t, d);
    InTokenPairs(first, files, |files|, u, d);
    PostsKey(s.trigrams, t, d);
    PostsKey(s.tokens, u, d);
    hide BuildSegment, TrigramPairs, TokenPairs, Posts, KeysWith, GroupFirst, PositionsWith, WellFormedFile;
  }

  /** What the row of a token says of a document. */
  lemma SegmentRow(first: DocId, files: seq<ProcessedFile>, t: Token, d: DocId, p: nat)
    requires AllWellFormed(files) && AllRising(files)
    ensures var row := Row(BuildSegment(first, files).positions, t);
            && (d in row ==> row[d] != [] && Ascending(row[d]))
            && ((d in row && p in row[d]) <==> (t, d, p) in TokenTriples(first, files, |files|))
  {
    var s := BuildSegment(first, files);
    SegmentRecalls(first, files, d);
    InTokenTriples(first, files, |files|, t, d, p);
    RowIs(s.positions, t, d);
    hide BuildSegment, TokenTriples, KeysWith, GroupFirst, PositionsWith, Row, WellFormedFile, Occurs;
    if first <= d < first + |files| {
      var f := files[d - first];
      assert RisingPositions(f);
      GroupedRise(f, |f.tokenPositions|, t);
      assert PositionsWith(s.positions, d) == GroupFirst(f, |f.tokenPositions|);
    }
  }

  lemma RowIs(pm: PositionPostings, t: Token, d: DocId)
    ensures d in Row(pm, t) <==> t in PositionsWith(pm, d)
    ensures d in Row(pm, t) ==> Row(pm, t)[d] == PositionsWith(pm, d)[t]
  {
  }

  // ------------------------------------------------------------------- trigrams

  lemma SortedPairs(pairs: seq<Pair>)
    ensures SortedBy(PairLe, SortBy(PairLe, pairs))
    ensures forall x :: x in SortBy(PairLe, pairs) <==> x in pairs
  {
    Orders();
    SortSorts(PairLe, pairs);
    var sorted := SortBy(PairLe, pairs);
    hide *;
    forall x: Pair
      ensures x in sorted <==> x in pairs
    {
      assert x in multiset(sorted) <==> x in multiset(pairs);
    }
  }

  /** A list ascends and names the documents of a key's list: it is that list. */
  lemma SameList<K>(m: Postings<K>, k: K, docs: seq<DocId>)
    requires docs != [] && Ascending(docs) && (k in m ==> Ascending(m[k]))
    requires forall d: DocId :: d in docs <==> Posts(m, k, d)
    ensures k in m && m[k] == docs
  {
    assert docs[0] in docs;
    assert Posts(m, k, docs[0]);
    forall x: int
      ensures x in docs <==> x in m[k]
    {
      if x in docs || x in m[k] {
        assert x >= 0;
        assert Posts(m, k, x) <==> x in m[k];
      }
    }
    AscendingUnique(docs, m[k]);
  }

  lemma FlatTrigrams(first: DocId, files: seq<ProcessedFile>, groups: seq<Group>)
    requires AllWellFormed(files) && Grouped(SortBy(PairLe, TrigramPairs(first, files, |files|)), groups)
    ensures Iterates(groups, BuildSegment(first, files).trigrams)
  {
    var s, pairs := BuildSegment(first, files), TrigramPairs(first, files, |files|);
    SortedPairs(pairs);
    var sorted := SortBy(PairLe, pairs);
    hide BuildFirst, TrigramPairs, PairLe, SortedBy, AllWellFormed, SortBy;
    forall g | g in groups
      ensures g.key in s.trigrams && s.trigrams[g.key] == g.docs
    {
      TrigramDocsOf(first, files, sorted, groups, g);
    }
    forall t | t in s.trigrams
      ensures exists g :: g in groups && g.key == t
    {
      EveryTrigramListed(first, files, sorted, groups, t);
    }
  }

  lemma EveryTrigramListed(first: DocId, files: seq<ProcessedFile>, pairs: seq<Pair>, groups: seq<Group>, t: Trigram)
    requires AllWellFormed(files) && Grouped(pairs, groups) && t in BuildSegment(first, files).trigrams
    requires forall x: Pair :: x in pairs <==> x in TrigramPairs(first, files, |files|)
    ensures exists g :: g in groups && g.key == t
  {
    var s := BuildSegment(first, files);
    NoEmptyLists(first, files, |files|);
    var d := s.trigrams[t][0];
    SegmentPosts(first, files, d, t, "");
    assert Posts(s.trigrams, t, d);
    assert (t, d) in pairs;
  }

  lemma TrigramDocsOf(first: DocId, files: seq<ProcessedFile>, pairs: seq<Pair>, groups: seq<Group>, g: Group)
    requires AllWellFormed(files) && Grouped(pairs, groups) && g in groups
    requires forall x: Pair :: x in pairs <==> x in TrigramPairs(first, files, |files|)
    ensures var m := BuildSegment(first, files).trigrams; g.key in m && m[g.key] == g.docs
  {
    var s := BuildSegment(first, files);
    BuiltFirst(first, files, |files|);
    hide BuildFirst, TrigramPairs, Mentions, Recalls, AllWellFormed, WellFormedFile;
    forall d: DocId
      ensures d in g.docs <==> Posts(s.trigrams, g.key, d)
    {
      SegmentPosts(first, files, d, g.key, "");
    }
    GroupOk(pairs, groups, g);
    hide Grouped, Posts;
    SameList(s.trigrams, g.key, g.docs);
  }

  // --------------------------------------------------------------------- tokens

  /** The positions grouped under a key, none if it has no group. */
  function FindPlaces(data: seq<PlaceGroup>, key: nat): seq<DocPlaces> {
    if data == [] then []
    else if data[|data| - 1].key == key then data[|data| - 1].places
    else FindPlaces(data[..|data| - 1], key)
  }

  ghost predicate Rising(data: seq<PlaceGroup>) {
    forall i, j :: 0 <= i < j < |data| ==> data[i].key < data[j].key
  }

  lemma {:induction false} FoundAt(data: seq<PlaceGroup>, key: nat, j: nat)
    requires Rising(data) && j < |data| && data[j].key == key
    ensures FindPlaces(data, key) == data[j].places
    decreases |data|
  {
    if j < |data| - 1 {
      FoundAt(data[..|data| - 1], key, j);
    }
  }

  lemma {:induction false} NotFound(data: seq<PlaceGroup>, key: nat)
    requires forall j :: 0 <= j < |data| ==> data[j].key != key
    ensures FindPlaces(data, key) == []
    decreases |data|
  {
    if data != [] {
      NotFound(data[..|data| - 1], key);
    }
  }

  ghost predicate Joined(entries: seq<TokenEntry>, groups: seq<Group>, data: seq<PlaceGroup>, symbols: seq<Token>) {
    && |entries| <= |groups|
    && forall k :: 0 <= k < |entries| ==>
         groups[k].key < |symbols|
           && entries[k] == TokenEntry(symbols[groups[k].key], groups[k].docs, FindPlaces(data, groups[k].key))
  }

  /** Both lists rise, so one cursor over the positions is enough. */
  method LockstepJoin(groups: seq<Group>, positionData: seq<PlaceGroup>, symbolsSorted: seq<Token>)
      returns (entries: seq<TokenEntry>)
    requires forall i, j :: 0 <= i < j < |groups| ==> groups[i].key < groups[j].key
    requires forall g :: g in groups ==> g.key < |symbolsSorted|
    requires Rising(positionData)
    ensures |entries| == |groups| && Joined(entries, groups, positionData, symbolsSorted)
  {
    entries := [];
    var posIdx := 0;
    var k := 0;
    while k < |groups|
      invariant 0 <= k <= |groups| && 0 <= posIdx <= |positionData|
      invariant |entries| == k && Joined(entries, groups, positionData, symbolsSorted)
      invariant k < |groups| ==> forall j :: 0 <= j < posIdx ==> positionData[j].key < groups[k].key
    {
      var rank := groups[k].key;
      assert groups[k] in groups;
      while posIdx < |positionData| && positionData[posIdx].key < rank
        invariant 0 <= posIdx <= |positionData|
        invariant forall j :: 0 <= j < posIdx ==> positionData[j].key < rank
      {
        posIdx := posIdx + 1;
      }
      var places := [];
      if posIdx < |positionData| && positionData[posIdx].key == rank {
        places := positionData[posIdx].places;
        FoundAt(positionData, rank, posIdx);
      } else {
        NotFound(positionData, rank);
      }
      hide FindPlaces;
      entries := entries + [TokenEntry(symbolsSorted[rank], groups[k].docs, places)];
      k := k + 1;
    }
  }

  // ----------------------------------------------------------- ranks mean tokens

  lemma NamedPair(sorted: seq<Token>, rank: seq<nat>, symbols: seq<Token>, pairs: seq<Pair>,
      named: seq<(Token, DocId)>, r: nat, d: DocId)
    requires Ranked(symbols, rank, sorted) && Names(sorted, pairs, named) && r < |sorted|
    ensures (r, d) in pairs <==> (sorted[r], d) in named
  {
    hide Before;
    if (r, d) in pairs {
      var i :| 0 <= i < |pairs| && pairs[i] == (r, d);
      assert named[i] == (sorted[r], d);
    }
    if (sorted[r], d) in named {
      var i :| 0 <= i < |named| && named[i] == (sorted[r], d);
      assert sorted[pairs[i].0] == sorted[r];
      assert pairs[i] == (r, d);
    }
  }

  lemma NamedTriple(sorted: seq<Token>, rank: seq<nat>, symbols: seq<Token>, triples: seq<Triple>,
      named: seq<(Token, DocId, nat)>, r: nat, d: DocId, p: nat)
    requires Ranked(symbols, rank, sorted) && NamesAll(sorted, triples, named) && r < |sorted|
    ensures (r, d, p) in triples <==> (sorted[r], d, p) in named
  {
    hide Before;
    if (r, d, p) in triples {
      var i :| 0 <= i < |triples| && triples[i] == (r, d, p);
      assert named[i] == (sorted[r], d, p);
    }
    if (sorted[r], d, p) in named {
      var i :| 0 <= i < |named| && named[i] == (sorted[r], d, p);
      assert sorted[triples[i].0] == sorted[r];
      assert triples[i] == (r, d, p);
    }
  }

  // -------------------------------------------------------- triples are distinct

  lemma {:induction false} FileTriplesDistinct(f: ProcessedFile, m: nat, d: DocId)
    requires WellFormedFile(f) && RisingPositions(f) && m <= |f.tokenPositions|
    ensures Distinct(FileTriples(f, m, d)) && |FileTriples(f, m, d)| == m
    ensures forall k :: 0 <= k < m ==>
            FileTriples(f, m, d)[k].1 == d && FileTriples(f, m, d)[k].2 == f.tokenPositions[k].1
  {
    if m > 0 {
      FileTriplesDistinct(f, m - 1, d);
    }
  }

  lemma {:induction false} TriplesDistinct(first: DocId, files: seq<ProcessedFile>, n: nat)
    requires n <= |files| && AllWellFormed(files) && AllRising(files)
    ensures Distinct(TokenTriples(first, files, n))
    ensures forall x :: x in TokenTriples(first, files, n) ==> x.1 < first + n
  {
    if n > 0 {
      TriplesDistinct(first, files, n - 1);
      var f := files[n - 1];
      assert WellFormedFile(f) && RisingPositions(f);
      FileTriplesDistinct(f, |f.tokenPositions|, first + n - 1);
      hide FileTriples, WellFormedFile, RisingPositions;
      DistinctConcat(TokenTriples(first, files, n - 1), FileTriples(f, |f.tokenPositions|, first + n - 1),
          first + n - 1);
    }
  }

  lemma DistinctConcat(a: seq<(Token, DocId, nat)>, b: seq<(Token, DocId, nat)>, d: DocId)
    requires Distinct(a) && Distinct(b)
    requires (forall x :: x in a ==> x.1 < d) && forall k :: 0 <= k < |b| ==> b[k].1 == d
    ensures Distinct(a + b) && forall x :: x in a + b ==> x.1 <= d
  {
    var both := a + b;
    forall i, j | 0 <= i < j < |both|
      ensures both[i] != both[j]
    {
      if i < |a| <= j {
        assert a[i] in a;
      }
    }
  }

  lemma NamedDistinct(symbols: seq<Token>, triples: seq<Triple>, named: seq<(Token, DocId, nat)>)
    requires NamesAll(symbols, triples, named) && Distinct(named)
    ensures Distinct(triples)
  {
    forall i, j | 0 <= i < j < |triples|
      ensures triples[i] != triples[j]
    {
      assert named[i] != named[j];
    }
  }

  lemma SortedTriples(triples: seq<Triple>)
    requires Distinct(triples)
    ensures StrictlySorted(SortBy(TripleLe, triples))
    ensures forall x :: x in SortBy(TripleLe, triples) <==> x in triples
  {
    Orders();
    SortSorts(TripleLe, triples);
    SortKeepsDistinct(TripleLe, triples);
    var sorted := SortBy(TripleLe, triples);
    assert StrictlySorted(sorted);
    hide *;
    forall x: Triple
      ensures x in sorted <==> x in triples
    {
      assert x in multiset(sorted) <==> x in multiset(triples);
    }
  }

  // ------------------------------------------------------------------ main result

  /** A row listed from its elements. */
  lemma RowFrom(places: seq<DocPlaces>, row: map<DocId, seq<nat>>)
    requires InOrder(places)
    requires forall d: DocId, p: nat :: Has(places, d, p) <==> d in row && p in row[d]
    requires forall d :: d in row ==> row[d] != [] && Ascending(row[d])
    ensures RowListed(places, row)
  {
    forall e | e in places
      ensures e.doc in row && row[e.doc] == e.positions
    {
      assert e.positions[0] in e.positions;
      assert Has(places, e.doc, e.positions[0]);
      forall p: int
        ensures p in e.positions <==> p in row[e.doc]
      {
        if p in e.positions || p in row[e.doc] {
          assert p >= 0;
          OneEntry(places, e, p);
        }
      }
      AscendingUnique(e.positions, row[e.doc]);
    }
    forall d | d in row
      ensures exists e :: e in places && e.doc == d
    {
      assert row[d][0] in row[d];
      assert Has(places, d, row[d][0]);
    }
  }

  lemma OneEntry(places: seq<DocPlaces>, e: DocPlaces, p: nat)
    requires InOrder(places) && e in places
    ensures Has(places, e.doc, p) <==> p in e.positions
  {
    hide Ascending;
    if Has(places, e.doc, p) {
      var o :| o in places && o.doc == e.doc && p in o.positions;
      assert o == e;
    }
  }

  /** What the ranked lists say, by token. */
  ghost predicate Flattened(first: DocId, files: seq<ProcessedFile>, sorted: seq<Token>, pairs: seq<Pair>,
      triples: seq<Triple>)
    requires AllWellFormed(files)
  {
    && (forall i, j :: 0 <= i < j < |sorted| ==> StrictlyBefore(sorted[i], sorted[j]))
    && (forall x :: x in pairs ==> x.0 < |sorted|)
    && (forall r: nat, d: DocId :: r < |sorted| ==>
        ((r, d) in pairs <==> (sorted[r], d) in TokenPairs(first, files, |files|)))
    && (forall t: Token, d: DocId :: (t, d) in TokenPairs(first, files, |files|) ==> t in sorted)
    && (forall r: nat, d: DocId, p: nat :: r < |sorted| ==>
        ((r, d, p) in triples <==> (sorted[r], d, p) in TokenTriples(first, files, |files|)))
  }

  lemma JoinedPlaces(first: DocId, files: seq<ProcessedFile>, sorted: seq<Token>, pairs: seq<Pair>,
      triples: seq<Triple>, data: seq<PlaceGroup>, r: nat)
    requires AllWellFormed(files) && AllRising(files) && Flattened(first, files, sorted, pairs, triples)
    requires PlacesGrouped(triples, data) && r < |sorted|
    ensures RowListed(FindPlaces(data, r), Row(BuildSegment(first, files).positions, sorted[r]))
  {
    var places, row := FindPlaces(data, r), Row(BuildSegment(first, files).positions, sorted[r]);
    forall d: DocId, p: nat
      ensures Has(places, d, p) <==> (r, d, p) in triples
    {
      FoundOrNot(triples, data, r, d, p);
    }
    FoundOrNot(triples, data, r, 0, 0);
    forall d | d in row
      ensures row[d] != [] && Ascending(row[d])
    {
      SegmentRow(first, files, sorted[r], d, 0);
    }
    forall d: DocId, p: nat
      ensures d in row && p in row[d] <==> (sorted[r], d, p) in TokenTriples(first, files, |files|)
    {
      SegmentRow(first, files, sorted[r], d, p);
    }
    hide PlacesGrouped, BuildSegment, TokenTriples, TokenPairs, Row, FindPlaces, Has, InOrder, Ascending,
        AllWellFormed, AllRising;
    assert forall d: DocId, p: nat :: (r, d, p) in triples <==>
           (sorted[r], d, p) in TokenTriples(first, files, |files|);
    RowFrom(places, row);
  }

  lemma FoundOrNot(triples: seq<Triple>, data: seq<PlaceGroup>, r: nat, d: DocId, p: nat)
    requires PlacesGrouped(triples, data)
    ensures InOrder(FindPlaces(data, r))
    ensures Has(FindPlaces(data, r), d, p) <==> (r, d, p) in triples
  {
    hide InOrder, Has, FindPlaces;
    if j: nat :| j < |data| && data[j].key == r {
      FoundAt(data, r, j);
      assert data[j] in data;
    } else {
      NotFound(data, r);
      NothingThere(d, p);
    }
  }

  lemma NothingThere(d: DocId, p: nat)
    ensures InOrder([]) && !Has([], d, p)
  {
  }

  lemma JoinedDocs(first: DocId, files: seq<ProcessedFile>, sorted: seq<Token>, pairs: seq<Pair>, triples: seq<Triple>,
      groups: seq<Group>, g: Group)
    requires AllWellFormed(files) && Flattened(first, files, sorted, pairs, triples)
    requires Grouped(pairs, groups) && g in groups && g.key < |sorted|
    ensures var m := BuildSegment(first, files).tokens; sorted[g.key] in m && m[sorted[g.key]] == g.docs
  {
    var s := BuildSegment(first, files);
    BuiltFirst(first, files, |files|);
    hide BuildFirst, TokenPairs, TokenTriples, Mentions, Recalls, AllWellFormed, WellFormedFile;
    forall d: DocId
      ensures d in g.docs <==> Posts(s.tokens, sorted[g.key], d)
    {
      SegmentPosts(first, files, d, 0, sorted[g.key]);
      assert (g.key, d) in pairs <==> (sorted[g.key], d) in TokenPairs(first, files, |files|);
    }
    hide Flattened, Grouped;
    assert g.docs != [] && Ascending(g.docs) by { GroupOk(pairs, groups, g); }
    SameList(s.tokens, sorted[g.key], g.docs);
  }

  lemma GroupOk(pairs: seq<Pair>, groups: seq<Group>, g: Group)
    requires Grouped(pairs, groups) && g in groups
    ensures g.docs != [] && Ascending(g.docs) && exists d: DocId :: (g.key, d) in pairs
  {
    assert g.docs[0] in g.docs;
  }

  lemma EveryTokenListed(first: DocId, files: seq<ProcessedFile>, sorted: seq<Token>, pairs: seq<Pair>,
      triples: seq<Triple>, groups: seq<Group>, t: Token)
    returns (k: nat)
    requires AllWellFormed(files) && Flattened(first, files, sorted, pairs, triples)
    requires Grouped(pairs, groups) && t in BuildSegment(first, files).tokens
    ensures k < |groups| && groups[k].key < |sorted| && sorted[groups[k].key] == t
  {
    var s := BuildSegment(first, files);
    NoEmptyLists(first, files, |files|);
    var d := s.tokens[t][0];
    SegmentPosts(first, files, d, 0, t);
    assert Posts(s.tokens, t, d);
    hide BuildSegment, TokenPairs, TokenTriples, AllWellFormed;
    assert (t, d) in TokenPairs(first, files, |files|);
    var r :| 0 <= r < |sorted| && sorted[r] == t;
    assert (r, d) in pairs;
    var g :| g in groups && g.key == r;
    k :| 0 <= k < |groups| && groups[k] == g;
  }

  lemma FlatTokens(first: DocId, files: seq<ProcessedFile>, sorted: seq<Token>, pairs: seq<Pair>, triples: seq<Triple>,
                   groups: seq<Group>, data: seq<PlaceGroup>, entries: seq<TokenEntry>)
    requires AllWellFormed(files) && AllRising(files) && Flattened(first, files, sorted, pairs, triples)
    requires Grouped(pairs, groups) && PlacesGrouped(triples, data)
    requires |entries| == |groups| && Joined(entries, groups, data, sorted)
    ensures TokensListed(entries, BuildSegment(first, files).tokens, BuildSegment(first, files).positions)
  {
    var s := BuildSegment(first, files);
    hide BuildSegment, AllWellFormed, AllRising, PlacesGrouped, FindPlaces, RowListed, Row, StrictlyBefore, TokenPairs,
        TokenTriples;
    forall i, j | 0 <= i < j < |entries|
      ensures StrictlyBefore(entries[i].token, entries[j].token)
    {
      assert groups[i].key < groups[j].key;
    }
    hide Flattened, Grouped;
    forall k | 0 <= k < |entries|
      ensures entries[k].token in s.tokens && s.tokens[entries[k].token] == entries[k].docs
      ensures RowListed(entries[k].places, Row(s.positions, entries[k].token))
    {
      JoinedDocs(first, files, sorted, pairs, triples, groups, groups[k]);
      JoinedPlaces(first, files, sorted, pairs, triples, data, groups[k].key);
    }
    forall t | t in s.tokens
      ensures exists e :: e in entries && e.token == t
    {
      var k := EveryTokenListed(first, files, sorted, pairs, triples, groups, t);
      assert entries[k] in entries && entries[k].token == t;
    }
  }

  lemma FlattenedIs(first: DocId, files: seq<ProcessedFile>, symbols: seq<Token>, rank: seq<nat>, sorted: seq<Token>,
                    pairs: seq<Pair>, triples: seq<Triple>)
    requires AllWellFormed(files) && AllRising(files) && Ranked(symbols, rank, sorted)
    requires Names(sorted, pairs, TokenPairs(first, files, |files|))
    requires NamesAll(sorted, triples, TokenTriples(first, files, |files|))
    ensures Flattened(first, files, sorted, SortBy(PairLe, pairs), SortBy(TripleLe, triples))
    ensures SortedBy(PairLe, SortBy(PairLe, pairs)) && StrictlySorted(SortBy(TripleLe, triples))
  {
    hide *;
    TriplesDistinct(first, files, |files|);
    NamedDistinct(sorted, triples, TokenTriples(first, files, |files|));
    SortedPairs(pairs);
    SortedTriples(triples);
    RankedRise(symbols, rank, sorted);
    NamesRanked(sorted, pairs, TokenPairs(first, files, |files|));
    forall r: nat, d: DocId | r < |sorted|
      ensures (r, d) in SortBy(PairLe, pairs) <==> (sorted[r], d) in TokenPairs(first, files, |files|)
    {
      NamedPair(sorted, rank, symbols, pairs, TokenPairs(first, files, |files|), r, d);
    }
    forall r: nat, d: DocId, p: nat | r < |sorted|
      ensures (r, d, p) in SortBy(TripleLe, triples) <==> (sorted[r], d, p) in TokenTriples(first, files, |files|)
    {
      NamedTriple(sorted, rank, symbols, triples, TokenTriples(first, files, |files|), r, d, p);
    }
    FlattenedFrom(first, files, sorted, SortBy(PairLe, pairs), SortBy(TripleLe, triples));
  }

  lemma FlattenedFrom(first: DocId, files: seq<ProcessedFile>, sorted: seq<Token>, pairs: seq<Pair>,
      triples: seq<Triple>)
    requires AllWellFormed(files)
    requires forall i, j :: 0 <= i < j < |sorted| ==> StrictlyBefore(sorted[i], sorted[j])
    requires forall x :: x in pairs ==> x.0 < |sorted|
    requires forall r: nat, d: DocId :: r < |sorted| ==>
             ((r, d) in pairs <==> (sorted[r], d) in TokenPairs(first, files, |files|))
    requires forall x :: x in TokenPairs(first, files, |files|) ==> x.0 in sorted
    requires forall r: nat, d: DocId, p: nat :: r < |sorted| ==>
             ((r, d, p) in triples <==> (sorted[r], d, p) in TokenTriples(first, files, |files|))
    ensures Flattened(first, files, sorted, pairs, triples)
  {
    hide TokenPairs, TokenTriples, AllWellFormed, StrictlyBefore;
  }

  lemma NamesRanked(sorted: seq<Token>, pairs: seq<Pair>, named: seq<(Token, DocId)>)
    requires Names(sorted, pairs, named)
    ensures forall x :: x in pairs ==> x.0 < |sorted|
    ensures forall x :: x in named ==> x.0 in sorted
  {
    forall x | x in named
      ensures x.0 in sorted
    {
      var i :| 0 <= i < |named| && named[i] == x;
      assert sorted[pairs[i].0] == x.0;
    }
  }

  lemma RankedRise(symbols: seq<Token>, rank: seq<nat>, sorted: seq<Token>)
    requires Ranked(symbols, rank, sorted)
    ensures forall i, j :: 0 <= i < j < |sorted| ==> StrictlyBefore(sorted[i], sorted[j])
  {
  }

  lemma CollectedParts(c: Collected, symbols: seq<Token>, first: DocId, files: seq<ProcessedFile>)
    requires AllWellFormed(files) && CollectedOf(c, symbols, first, files, |files|)
    ensures Interned(c.tokenIds, symbols) && Distinct(symbols) && c.trigramPairs == TrigramPairs(first, files, |files|)
    ensures Names(symbols, c.tokenPairs, TokenPairs(first, files, |files|))
    ensures NamesAll(symbols, c.positionTriples, TokenTriples(first, files, |files|))
  {
    hide Names, NamesAll, TrigramPairs, TokenPairs, TokenTriples;
  }

  lemma GroupsRise(pairs: seq<Pair>, groups: seq<Group>, first: DocId, files: seq<ProcessedFile>, sorted: seq<Token>,
      triples: seq<Triple>)
    requires AllWellFormed(files) && Grouped(pairs, groups) && Flattened(first, files, sorted, pairs, triples)
    ensures forall i, j :: 0 <= i < j < |groups| ==> groups[i].key < groups[j].key
    ensures forall g :: g in groups ==> g.key < |sorted|
  {
    forall g | g in groups
      ensures g.key < |sorted|
    {
      GroupOk(pairs, groups, g);
    }
  }

  lemma PlacesRise(triples: seq<Triple>, data: seq<PlaceGroup>)
    requires PlacesGrouped(triples, data)
    ensures Rising(data)
  {
  }

  /** The full build's segment lists what the sorted maps of the other pipeline list. */
  method ProcessSegment(first: DocId, files: seq<ProcessedFile>)
    returns (trigramPairs: seq<Pair>, trigrams: seq<Group>, tokens: seq<TokenEntry>)
    requires AllWellFormed(files) && AllRising(files)
    ensures forall x: Pair :: x in trigramPairs <==> x in TrigramPairs(first, files, |files|)
    ensures Iterates(trigrams, BuildSegment(first, files).trigrams)
    ensures TokensListed(tokens, BuildSegment(first, files).tokens, BuildSegment(first, files).positions)
  {
    hide *;
    var c; ghost var known;
    c, known := Collect(first, files);
    CollectedParts(c, known, first, files);
    var symbols := SymbolTable(c.tokenIds, known);
    var rank, sorted := Rank(symbols);
    var tokenPairs := RemapPairs(c.tokenPairs, rank, symbols, sorted, TokenPairs(first, files, |files|));
    var positionTriples := RemapTriples(c.positionTriples, rank, symbols, sorted, TokenTriples(first, files, |files|));
    SortedPairs(c.trigramPairs);
    FlattenedIs(first, files, symbols, rank, sorted, tokenPairs, positionTriples);
    var pairs, triples := SortBy(PairLe, tokenPairs), SortBy(TripleLe, positionTriples);
    trigramPairs := SortBy(PairLe, c.trigramPairs);
    trigrams := GroupPairs(trigramPairs);
    FlatTrigrams(first, files, trigrams);
    var groups := GroupPairs(pairs);
    var data := GroupTriples(triples);
    GroupsRise(pairs, groups, first, files, sorted, triples);
    PlacesRise(triples, data);
    tokens := LockstepJoin(groups, data, sorted);
    FlatTokens(first, files, sorted, pairs, triples, groups, data, tokens);
  }
}
