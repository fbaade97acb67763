/**
  Segment compaction (src/index/compact.rs): renumber the valid documents from
  1, rewrite every posting with the new numbers, and write one segment.
*/
module Compact {
  import opened Prelude
  import opened Index

  // ------------------------------------------------------------- the remapping

  /** `DocIdRemapping`: index an old id to get the new one; 0 means dropped. */
  datatype Remapping = Remapping(
    oldToNew: seq<DocId>,
    validDocs: seq<Document>,
    pathIds: seq<PathId>,
    validPaths: seq<Path>)
  {
    function Remap(d: DocId): Option<DocId> {
      if d < |oldToNew| && oldToNew[d] != 0 then Some(oldToNew[d]) else None
    }
  }

  /** Position of an old path id among those already given a new one. */
  function Renumbered(ids: seq<PathId>, id: PathId): (r: Option<nat>)
    ensures r.Some? ==> r.value < |ids| && ids[r.value] == id
    ensures r.None? ==> id !in ids
  {
    if ids == [] then None
    else if ids[|ids| - 1] == id then Some(|ids| - 1)
    else Renumbered(ids[..|ids| - 1], id)
  }

  function MergedDocument(doc: Document, docId: DocId, pathId: PathId): Document {
    doc.(docId := docId, pathId := pathId, segmentId := 1)
  }

  /** One document of the table entered into the remapping. */
  function RemapDoc(r: Remapping, doc: Document, paths: seq<Path>): Remapping
    requires doc.docId < |r.oldToNew|
  {
    if !doc.IsValid() then r
    else
      match Renumbered(r.pathIds, doc.pathId)
      case Some(id) =>
        r.(oldToNew := r.oldToNew[doc.docId := |r.validDocs| + 1],
           validDocs := r.validDocs + [MergedDocument(doc, |r.validDocs| + 1, id)])
      case None =>
        if doc.pathId >= |paths| then r
        else
          Remapping(
            r.oldToNew[doc.docId := |r.validDocs| + 1],
            r.validDocs + [MergedDocument(doc, |r.validDocs| + 1, |r.validPaths|)],
            r.pathIds + [doc.pathId],
            r.validPaths + [paths[doc.pathId]])
  }

  /** The remapping after the first `n` documents. */
  function RemapFirst(docs: seq<Document>, paths: seq<Path>, n: nat): (r: Remapping)
    requires n <= |docs|
    ensures |r.oldToNew| == MaxId(docs) + 1
  {
    if n == 0 then Remapping(seq(MaxId(docs) + 1, _ => 0), [], [], [])
    else
      MaxIdBounds(docs);
      RemapDoc(RemapFirst(docs, paths, n - 1), docs[n - 1], paths)
  }

  method BuildDocIdRemapping(docs: seq<Document>, paths: seq<Path>) returns (r: Remapping)
    ensures r == RemapFirst(docs, paths, |docs|)
  {
    var maxDocId := 0;
    var j := 0;
    while j < |docs|
      invariant 0 <= j <= |docs| && maxDocId == MaxId(docs[..j])
    {
      assert docs[..j + 1][..j] == docs[..j];
      if docs[j].docId > maxDocId {
        maxDocId := docs[j].docId;
      }
      j := j + 1;
    }
    assert docs[..j] == docs;
    MaxIdBounds(docs);
    var oldToNew := new DocId[maxDocId + 1](_ => 0);
    var validDocs: seq<Document> := [];
    var pathIds: seq<PathId> := [];
    var validPaths: seq<Path> := [];
    var nextDocId: DocId := 1;
    var i := 0;
    assert oldToNew[..] == seq(maxDocId + 1, _ => 0);
    while i < |docs|
      invariant 0 <= i <= |docs| && oldToNew.Length == maxDocId + 1
      invariant nextDocId == |validDocs| + 1
      invariant Remapping(oldToNew[..], validDocs, pathIds, validPaths) == RemapFirst(docs, paths, i)
    {
      var doc := docs[i];
      i := i + 1;
      if doc.IsValid() {
        var newPathId: PathId;
        var known := Renumbered(pathIds, doc.pathId);
        if known.Some? {
          newPathId := known.value;
        } else {
          newPathId := |validPaths|;
          if doc.pathId >= |paths| {
            continue;
          }
          validPaths := validPaths + [paths[doc.pathId]];
          pathIds := pathIds + [doc.pathId];
        }
        ghost var was := oldToNew[..];
        oldToNew[doc.docId] := nextDocId;
        assert oldToNew[..] == was[doc.docId := nextDocId];
        validDocs := validDocs + [MergedDocument(doc, nextDocId, newPathId)];
        nextDocId := nextDocId + 1;
      }
    }
    r := Remapping(oldToNew[..], validDocs, pathIds, validPaths);
  }

  /** How many of the first `n` documents survive. */
  function Rank(docs: seq<Document>, n: nat): (k: nat)
    requires n <= |docs|
    ensures k <= n
  {
    if n == 0 then 0 else Rank(docs, n - 1) + if docs[n - 1].IsValid() then 1 else 0
  }

  lemma {:induction false} RankGrows(docs: seq<Document>, m: nat, n: nat)
    requires m <= n <= |docs|
    ensures Rank(docs, m) <= Rank(docs, n)
    ensures m < n && docs[m].IsValid() ==> Rank(docs, m) < Rank(docs, n)
    decreases n
  {
    if m < n {
      RankGrows(docs, m, n - 1);
    }
  }

  /** What the remapping says of document `i` of the table. */
  ghost predicate RemapsDoc(docs: seq<Document>, paths: seq<Path>, r: Remapping, i: nat)
    requires i < |docs| && docs[i].pathId < |paths|
  {
    if docs[i].IsValid() then
      && var k := Rank(docs, i);
      && k < |r.validDocs| && k < |r.validPaths|
      && r.Remap(docs[i].docId) == Some(k + 1)
      && r.validDocs[k] == MergedDocument(docs[i], k + 1, k)
      && r.validPaths[k] == paths[docs[i].pathId]
    else
      r.Remap(docs[i].docId) == None
  }

  ghost predicate RemapsFirst(docs: seq<Document>, paths: seq<Path>, r: Remapping, n: nat)
    requires n <= |docs| && PathIdsIn(docs, |paths|)
  {
    && |r.oldToNew| == MaxId(docs) + 1
    && |r.validDocs| == |r.validPaths| == |r.pathIds| == Rank(docs, n)
    && (forall i :: 0 <= i < n ==> RemapsDoc(docs, paths, r, i))
    && (forall i :: n <= i < |docs| ==> r.Remap(docs[i].docId) == None)
    && (forall k :: 0 <= k < |r.pathIds| ==>
        exists i :: 0 <= i < n && docs[i].IsValid() && docs[i].pathId == r.pathIds[k])
  }

  lemma NewPathIsNew(docs: seq<Document>, paths: seq<Path>, r: Remapping, n: nat)
    requires n < |docs| && PathIdsIn(docs, |paths|) && OneLive(docs) && docs[n].IsValid()
    requires RemapsFirst(docs, paths, r, n)
    ensures Renumbered(r.pathIds, docs[n].pathId) == None
  {
    assert docs[n].pathId !in r.pathIds;
  }

  lemma RemapsStep(docs: seq<Document>, paths: seq<Path>, r: Remapping, n: nat)
    requires n < |docs| && PathIdsIn(docs, |paths|) && OneLive(docs) && AscendingIds(docs)
    requires docs[n].docId < |r.oldToNew|
    requires RemapsFirst(docs, paths, r, n)
    ensures RemapsFirst(docs, paths, RemapDoc(r, docs[n], paths), n + 1)
  {
    var q := RemapDoc(r, docs[n], paths);
    if docs[n].IsValid() {
      NewPathIsNew(docs, paths, r, n);
    }
    forall i | 0 <= i < n + 1
      ensures RemapsDoc(docs, paths, q, i)
    {
      if i < n {
        assert RemapsDoc(docs, paths, r, i);
        assert docs[i].docId < docs[n].docId;
      }
    }
    forall i | n + 1 <= i < |docs|
      ensures q.Remap(docs[i].docId) == None
    {
      assert docs[n].docId < docs[i].docId;
    }
    forall k | 0 <= k < |q.pathIds|
      ensures exists i :: 0 <= i < n + 1 && docs[i].IsValid() && docs[i].pathId == q.pathIds[k]
    {
      if k < |r.pathIds| {
        var i :| 0 <= i < n && docs[i].IsValid() && docs[i].pathId == r.pathIds[k];
      } else {
        assert docs[n].pathId == q.pathIds[k];
      }
    }
  }

  /**
    The remapping renumbers the valid documents 1, 2, ... in table order, gives
    each its own path back, and drops everything else.
  */
  lemma {:induction false} RemapsAll(docs: seq<Document>, paths: seq<Path>, n: nat)
    requires n <= |docs| && PathIdsIn(docs, |paths|) && OneLive(docs) && AscendingIds(docs)
    ensures RemapsFirst(docs, paths, RemapFirst(docs, paths, n), n)
  {
    if n > 0 {
      RemapsAll(docs, paths, n - 1);
      MaxIdBounds(docs);
      RemapsStep(docs, paths, RemapFirst(docs, paths, n - 1), n - 1);
    }
  }

  // ------------------------------------------------------------------ merging

  /** A posting list in new numbers, without the dropped documents. */
  function RemapList(r: Remapping, ids: seq<DocId>): seq<DocId> {
    if ids == [] then []
    else RemapList(r, ids[..|ids| - 1]) + match r.Remap(ids[|ids| - 1]) { case None => [] case Some(d) => [d] }
  }

  lemma {:induction false} RemapListHas(r: Remapping, ids: seq<DocId>, e: DocId)
    ensures e in RemapList(r, ids) <==> exists d :: d in ids && r.Remap(d) == Some(e)
    decreases |ids|
  {
    if ids != [] {
      var init, last := ids[..|ids| - 1], ids[|ids| - 1];
      RemapListHas(r, init, e);
      assert ids == init + [last];
    }
  }

  /** One segment's lists appended to the merged ones. */
  function MergeLists<K>(m: Postings<K>, add: Postings<K>, r: Remapping): Postings<K> {
    map k | k in m.Keys + add.Keys && (k in m || RemapList(r, add[k]) != []) :: Get(m, k) + RemapList(r, Get(add, k))
  }

  method RemapPostings(r: Remapping, ids: seq<DocId>) returns (remapped: seq<DocId>)
    ensures remapped == RemapList(r, ids)
  {
    remapped := [];
    var i := 0;
    while i < |ids|
      invariant 0 <= i <= |ids| && remapped == RemapList(r, ids[..i])
    {
      assert ids[..i + 1][..i] == ids[..i];
      var d := r.Remap(ids[i]);
      if d.Some? {
        remapped := remapped + [d.value];
      }
      i := i + 1;
    }
    assert ids[..i] == ids;
  }

  method MergePostings<K(!new)>(m: Postings<K>, add: Postings<K>, r: Remapping) returns (merged: Postings<K>)
    ensures merged == MergeLists(m, add, r)
  {
    merged := m;
    var todo := add.Keys;
    assert add - todo == map[];
    MergeNothing(m, r);
    while todo != {}
      invariant todo <= add.Keys
      invariant merged == MergeLists(m, add - todo, r)
      decreases todo
    {
      var k :| k in todo;
      var remapped := RemapPostings(r, add[k]);
      MergeOneMore(m, add, r, todo, k);
      todo := todo - {k};
      if remapped != [] {
        merged := merged[k := Get(merged, k) + remapped];
      }
    }
    assert add - todo == add;
  }

  lemma MergeOneMore<K(!new)>(m: Postings<K>, add: Postings<K>, r: Remapping, todo: set<K>, k: K)
    requires k in todo && todo <= add.Keys
    ensures var before, l := MergeLists(m, add - todo, r), RemapList(r, add[k]);
            MergeLists(m, add - (todo - {k}), r) == if l == [] then before else before[k := Get(before, k) + l]
  {
    EmptyList(r);
    hide RemapList;
    var x, y := add - todo, add - (todo - {k});
    var a, b, l := MergeLists(m, x, r), MergeLists(m, y, r), RemapList(r, add[k]);
    assert Get(a, k) == Get(m, k);
    var c := if l == [] then a else a[k := Get(a, k) + l];
    forall j: K
      ensures (j in b <==> j in c) && (j in b ==> b[j] == c[j])
    {
      if j == k {
        assert Get(y, j) == add[k];
      } else {
        assert Get(y, j) == Get(x, j);
      }
    }
  }

  lemma MergeNothing<K(!new)>(m: Postings<K>, r: Remapping)
    ensures MergeLists(m, map[], r) == m
  {
    EmptyList(r);
    var merged := MergeLists(m, map[], r);
    assert forall k :: k in merged <==> k in m;
    forall k | k in m
      ensures merged[k] == m[k]
    {
      assert merged[k] == m[k] + [];
    }
  }

  lemma EmptyList(r: Remapping)
    ensures RemapList(r, []) == []
  {
  }

  /** Different old numbers never share a new one. */
  ghost predicate Injective(r: Remapping) {
    forall c, d :: r.Remap(c).Some? && r.Remap(c) == r.Remap(d) ==> c == d
  }

  lemma MergedKeys<K(!new)>(m: Postings<K>, add: Postings<K>, r: Remapping, d: DocId, e: DocId)
    requires Injective(r) && r.Remap(d) == Some(e)
    ensures KeysWith(MergeLists(m, add, r), e) == KeysWith(m, e) + KeysWith(add, d)
  {
    var merged := MergeLists(m, add, r);
    var all := KeysWith(m, e) + KeysWith(add, d);
    forall k: K
      ensures k in KeysWith(merged, e) <==> k in all
    {
      RemapListHas(r, Get(add, k), e);
      if k in merged {
        assert merged[k] == Get(m, k) + RemapList(r, Get(add, k));
      }
    }
  }

  lemma MergedElsewhere<K(!new)>(m: Postings<K>, add: Postings<K>, r: Remapping, e: DocId)
    requires Unmapped(r, e)
    ensures KeysWith(MergeLists(m, add, r), e) == KeysWith(m, e)
  {
    var merged := MergeLists(m, add, r);
    forall k: K
      ensures k in KeysWith(merged, e) <==> k in KeysWith(m, e)
    {
      RemapListHas(r, Get(add, k), e);
      if k in merged {
        assert merged[k] == Get(m, k) + RemapList(r, Get(add, k));
      }
    }
  }

  /** No document becomes `e`. */
  ghost predicate Unmapped(r: Remapping, e: DocId) {
    forall d :: r.Remap(d) != Some(e)
  }

  /** Entry `e` of the merged row: what was there followed by what `d` brings. */
  ghost predicate Gains(row: map<DocId, seq<nat>>, add: map<DocId, seq<nat>>, merged: map<DocId, seq<nat>>, d: DocId,
      e: DocId) {
    && (e in merged <==> e in row || d in add)
    && (d in add ==> merged[e] == (if e in row then row[e] else []) + add[d])
    && (d !in add && e in row ==> merged[e] == row[e])
  }

  ghost predicate Keeps(row: map<DocId, seq<nat>>, merged: map<DocId, seq<nat>>, e: DocId) {
    (e in merged <==> e in row) && (e in row ==> merged[e] == row[e])
  }

  /** `merged` is `row` with the documents of `add` moved in under their new numbers. */
  ghost predicate RowMerges(row: map<DocId, seq<nat>>, add: map<DocId, seq<nat>>, r: Remapping,
      merged: map<DocId, seq<nat>>) {
    && (forall d, e: DocId :: r.Remap(d) == Some(e) ==> Gains(row, add, merged, d, e))
    && (forall e: DocId :: Unmapped(r, e) ==> Keeps(row, merged, e))
  }

  lemma RowOneMore(row: map<DocId, seq<nat>>, add: map<DocId, seq<nat>>, r: Remapping, todo: set<DocId>, c: DocId,
      merged: map<DocId, seq<nat>>)
    requires Injective(r) && c in todo && todo <= add.Keys && RowMerges(row, add - todo, r, merged)
    ensures RowMerges(row, add - (todo - {c}), r,
              match r.Remap(c)
              case None => merged
              case Some(e) => merged[e := (if e in merged then merged[e] else []) + add[c]])
  {
    var x, y := add - todo, add - (todo - {c});
    assert forall d: DocId :: d in y <==> d in x || d == c;
    assert forall d :: d in x ==> y[d] == x[d];
    assert c !in x && y[c] == add[c];
    var next :=
      match r.Remap(c)
      case None => merged
      case Some(e) => merged[e := (if e in merged then merged[e] else []) + add[c]];
    forall d, e: DocId | r.Remap(d) == Some(e)
      ensures Gains(row, y, next, d, e)
    {
      assert Gains(row, x, merged, d, e);
    }
    forall e: DocId | Unmapped(r, e)
      ensures Keeps(row, next, e)
    {
      assert Keeps(row, merged, e);
    }
  }

  method MergeRow(row: map<DocId, seq<nat>>, add: map<DocId, seq<nat>>, r: Remapping)
      returns (merged: map<DocId, seq<nat>>)
    requires Injective(r)
    ensures RowMerges(row, add, r, merged)
  {
    merged := row;
    var todo := add.Keys;
    assert add - todo == map[];
    while todo != {}
      invariant todo <= add.Keys && RowMerges(row, add - todo, r, merged)
      decreases todo
    {
      hide RowMerges, Injective;
      var d :| d in todo;
      RowOneMore(row, add, r, todo, d, merged);
      todo := todo - {d};
      var e := r.Remap(d);
      if e.Some? {
        merged := merged[e.value := (if e.value in merged then merged[e.value] else []) + add[d]];
      }
    }
    assert add - todo == add;
  }

  ghost predicate PositionsMerge(m: PositionPostings, add: PositionPostings, r: Remapping, merged: PositionPostings) {
    && (forall t: Token :: t in merged <==> t in m || t in add)
    && (forall t: Token :: t in merged ==> RowMerges(Row(m, t), Row(add, t), r, merged[t]))
  }

  lemma UntouchedRow(row: map<DocId, seq<nat>>, r: Remapping)
    ensures RowMerges(row, map[], r, row)
  {
  }

  method MergePositions(m: PositionPostings, add: PositionPostings, r: Remapping) returns (merged: PositionPostings)
    requires Injective(r)
    ensures PositionsMerge(m, add, r, merged)
  {
    merged := m;
    var todo := add.Keys;
    hide RowMerges, Injective;
    forall t | t in m
      ensures RowMerges(Row(m, t), map[], r, m[t])
    {
      UntouchedRow(m[t], r);
    }
    assert add - todo == map[];
    while todo != {}
      invariant todo <= add.Keys && PositionsMerge(m, add - todo, r, merged)
      decreases todo
    {
      var t: Token :| t in todo;
      assert t in merged ==> t in m;
      var row := MergeRow(Row(m, t), add[t], r);
      merged := merged[t := row];
      ghost var before := add - todo;
      todo := todo - {t};
      assert forall k: Token :: k in add - todo <==> k in before || k == t;
      assert forall k: Token :: k != t ==> Row(add - todo, k) == Row(before, k);
    }
    assert add - todo == add;
  }

  /** What a document has is in the segments' lists and nowhere else. */
  ghost predicate Moves(merged: Segment, m: Segment, add: Segment, r: Remapping) {
    && (forall d, e :: r.Remap(d) == Some(e) ==> MovesDoc(merged, m, add, d, e))
    && (forall e: DocId :: Unmapped(r, e) ==>
        DataIn(merged, e) == DataIn(m, e) && TrigramsIn(merged, e) == TrigramsIn(m, e))
  }

  /** New document `e` has what old document `d` has in `add`, or else what it had. */
  ghost predicate MovesDoc(merged: Segment, m: Segment, add: Segment, d: DocId, e: DocId) {
    if Mentions(add, d) then DataIn(merged, e) == DataIn(add, d) && TrigramsIn(merged, e) == TrigramsIn(add, d)
    else DataIn(merged, e) == DataIn(m, e) && TrigramsIn(merged, e) == TrigramsIn(m, e)
  }

  /** No document is in both. */
  ghost predicate Separate(m: Segment, add: Segment, r: Remapping) {
    forall d, e :: r.Remap(d) == Some(e) && Mentions(add, d) ==> !Mentions(m, e)
  }

  lemma MergedPlace(m: PositionPostings, add: PositionPostings, r: Remapping, merged: PositionPostings, d: DocId,
      e: DocId, t: Token)
    requires PositionsMerge(m, add, r, merged) && r.Remap(d) == Some(e)
    ensures Places(merged, t, e) <==> Places(m, t, e) || Places(add, t, d)
    ensures Places(add, t, d) && !Places(m, t, e) ==> merged[t][e] == add[t][d]
    ensures !Places(add, t, d) && Places(m, t, e) ==> merged[t][e] == m[t][e]
  {
    if t in merged {
      assert RowMerges(Row(m, t), Row(add, t), r, merged[t]);
      assert Gains(Row(m, t), Row(add, t), merged[t], d, e);
      hide PositionsMerge, RowMerges;
      if t in add && d in add[t] {
        assert [] + add[t][d] == add[t][d];
      }
    }
  }

  lemma NoPlaces(m: PositionPostings, d: DocId, t: Token)
    requires PositionsWith(m, d) == map[]
    ensures !Places(m, t, d)
  {
    assert t !in PositionsWith(m, d);
  }

  lemma MergedPositionsAt(m: PositionPostings, add: PositionPostings, r: Remapping, merged: PositionPostings, d: DocId,
      e: DocId)
    requires PositionsMerge(m, add, r, merged) && r.Remap(d) == Some(e)
    requires PositionsWith(m, e) == map[] || PositionsWith(add, d) == map[]
    ensures PositionsWith(merged, e) ==
            if PositionsWith(m, e) == map[] then PositionsWith(add, d) else PositionsWith(m, e)
  {
    var all := if PositionsWith(m, e) == map[] then PositionsWith(add, d) else PositionsWith(m, e);
    forall t: Token
      ensures t in PositionsWith(merged, e) <==> t in all
      ensures t in all ==> PositionsWith(merged, e)[t] == all[t]
    {
      MergedPlace(m, add, r, merged, d, e, t);
      hide PositionsMerge;
      if PositionsWith(m, e) == map[] {
        NoPlaces(m, e, t);
      } else {
        NoPlaces(add, d, t);
      }
    }
  }

  lemma MergedPositionsElsewhere(m: PositionPostings, add: PositionPostings, r: Remapping, merged: PositionPostings,
      e: DocId)
    requires PositionsMerge(m, add, r, merged) && Unmapped(r, e)
    ensures PositionsWith(merged, e) == PositionsWith(m, e)
  {
    forall t: Token
      ensures Places(merged, t, e) <==> Places(m, t, e)
      ensures Places(m, t, e) ==> merged[t][e] == m[t][e]
    {
      if t in merged {
        assert RowMerges(Row(m, t), Row(add, t), r, merged[t]);
        assert Keeps(Row(m, t), merged[t], e);
      }
    }
  }

  method MergeSegment(m: Segment, add: Segment, r: Remapping) returns (merged: Segment)
    requires Injective(r) && Separate(m, add, r)
    ensures Moves(merged, m, add, r)
  {
    var trigrams := MergePostings(m.trigrams, add.trigrams, r);
    var tokens := MergePostings(m.tokens, add.tokens, r);
    var lineMaps := MergeLineMaps(m.lineMaps, add.lineMaps, r);
    var positions := MergePositions(m.positions, add.positions, r);
    merged := Segment(trigrams, tokens, positions, lineMaps);
    MergedMoves(merged, m, add, r);
  }

  method MergeLineMaps(m: map<DocId, seq<nat>>, add: map<DocId, seq<nat>>, r: Remapping)
      returns (merged: map<DocId, seq<nat>>)
    requires Injective(r)
    ensures LinesMerge(m, add, r, merged)
  {
    merged := m;
    var todo := add.Keys;
    while todo != {}
      invariant todo <= add.Keys
      invariant forall d, e: DocId :: r.Remap(d) == Some(e) ==>
                  (e in merged <==> e in m || d in add.Keys - todo)
                    && (e in merged ==> merged[e] == if d in add.Keys - todo then add[d] else m[e])
      invariant forall e: DocId :: Unmapped(r, e) ==> Keeps(m, merged, e)
      decreases todo
    {
      var d :| d in todo;
      todo := todo - {d};
      var e := r.Remap(d);
      if e.Some? {
        merged := merged[e.value := add[d]];
      }
    }
  }

  ghost predicate LinesMerge(m: map<DocId, seq<nat>>, add: map<DocId, seq<nat>>, r: Remapping,
      merged: map<DocId, seq<nat>>) {
    && (forall d, e: DocId :: r.Remap(d) == Some(e) ==>
          (e in merged <==> e in m || d in add) && (e in merged ==> merged[e] == if d in add then add[d] else m[e]))
    && (forall e: DocId :: Unmapped(r, e) ==> Keeps(m, merged, e))
  }

  ghost predicate MergesInto(merged: Segment, m: Segment, add: Segment, r: Remapping) {
    && merged.trigrams == MergeLists(m.trigrams, add.trigrams, r)
    && merged.tokens == MergeLists(m.tokens, add.tokens, r)
    && LinesMerge(m.lineMaps, add.lineMaps, r, merged.lineMaps)
    && PositionsMerge(m.positions, add.positions, r, merged.positions)
  }

  lemma MergedDoc(merged: Segment, m: Segment, add: Segment, r: Remapping, d: DocId, e: DocId)
    requires Injective(r) && Separate(m, add, r) && MergesInto(merged, m, add, r) && r.Remap(d) == Some(e)
    ensures MovesDoc(merged, m, add, d, e)
  {
    hide KeysWith, PositionsWith, PositionsMerge, MergeLists, Injective, LinesMerge;
    MergedKeys(m.trigrams, add.trigrams, r, d, e);
    MergedKeys(m.tokens, add.tokens, r, d, e);
    if Mentions(add, d) {
      assert !Mentions(m, e);
      MergedPositionsAt(m.positions, add.positions, r, merged.positions, d, e);
      MergedLine(m.lineMaps, add.lineMaps, r, merged.lineMaps, d, e);
      assert {} + KeysWith(add.trigrams, d) == KeysWith(add.trigrams, d);
      assert {} + KeysWith(add.tokens, d) == KeysWith(add.tokens, d);
    } else {
      MergedPositionsAt(m.positions, add.positions, r, merged.positions, d, e);
      MergedLine(m.lineMaps, add.lineMaps, r, merged.lineMaps, d, e);
      assert KeysWith(m.trigrams, e) + {} == KeysWith(m.trigrams, e);
      assert KeysWith(m.tokens, e) + {} == KeysWith(m.tokens, e);
    }
  }

  lemma MergedLine(m: map<DocId, seq<nat>>, add: map<DocId, seq<nat>>, r: Remapping, merged: map<DocId, seq<nat>>,
      d: DocId, e: DocId)
    requires LinesMerge(m, add, r, merged) && r.Remap(d) == Some(e)
    ensures (e in merged <==> e in m || d in add) && (e in merged ==> merged[e] == if d in add then add[d] else m[e])
  {
  }

  lemma MergedMoves(merged: Segment, m: Segment, add: Segment, r: Remapping)
    requires Injective(r) && Separate(m, add, r) && MergesInto(merged, m, add, r)
    ensures Moves(merged, m, add, r)
  {
    forall d, e: DocId | r.Remap(d) == Some(e)
      ensures MovesDoc(merged, m, add, d, e)
    {
      MergedDoc(merged, m, add, r, d, e);
    }
    forall e: DocId | Unmapped(r, e)
      ensures DataIn(merged, e) == DataIn(m, e) && TrigramsIn(merged, e) == TrigramsIn(m, e)
    {
      MergedElsewhere(m.trigrams, add.trigrams, r, e);
      MergedElsewhere(m.tokens, add.tokens, r, e);
      MergedPositionsElsewhere(m.positions, add.positions, r, merged.positions, e);
      assert Keeps(m.lineMaps, merged.lineMaps, e);
    }
  }

  // ------------------------------------------------------------ all segments

  /** `merged` says of `e` what `seg` says of `d`. */
  ghost predicate SameDoc(merged: Segment, e: DocId, seg: Segment, d: DocId) {
    DataIn(merged, e) == DataIn(seg, d) && TrigramsIn(merged, e) == TrigramsIn(seg, d)
  }

  lemma SameMentions(a: Segment, e: DocId, b: Segment, d: DocId)
    requires SameDoc(a, e, b, d)
    ensures Mentions(a, e) <==> Mentions(b, d)
  {
  }

  lemma BlankMentions(d: DocId)
    ensures !Mentions(EMPTY_SEGMENT, d)
  {
  }

  /** The segment of a document, once the first `n` active segments are merged. */
  function Source(idx: Index, doc: Document, n: nat): Segment
    requires n <= |Active(idx)|
  {
    if doc.segmentId in Active(idx)[..n] && doc.segmentId in idx.segments then idx.segments[doc.segmentId]
    else EMPTY_SEGMENT
  }

  ghost predicate MergedUpTo(idx: Index, r: Remapping, merged: Segment, n: nat)
    requires n <= |Active(idx)|
  {
    && (forall i, e: DocId :: 0 <= i < |idx.docs| && r.Remap(idx.docs[i].docId) == Some(e) ==>
          SameDoc(merged, e, Source(idx, idx.docs[i], n), idx.docs[i].docId))
    && (forall e: DocId :: Unmapped(r, e) ==> !Mentions(merged, e))
  }

  /** Only documents of the table are renumbered, each to its own number. */
  ghost predicate KnownIds(docs: seq<Document>, r: Remapping) {
    && Injective(r)
    && (forall d :: r.Remap(d).Some? ==> exists i :: 0 <= i < |docs| && docs[i].docId == d)
  }

  lemma NextSeparate(idx: Index, r: Remapping, merged: Segment, n: nat)
    requires Valid(idx) && KnownIds(idx.docs, r) && n < |Active(idx)| && MergedUpTo(idx, r, merged, n)
    requires Active(idx)[n] in idx.segments
    ensures Separate(merged, idx.segments[Active(idx)[n]], r)
  {
    var s := Active(idx)[n];
    assert SegmentSound(idx, s);
    assert s !in Active(idx)[..n];
    forall d, e: DocId | r.Remap(d) == Some(e) && Mentions(idx.segments[s], d)
      ensures !Mentions(merged, e)
    {
      assert Owns(idx.docs, d, s);
      var i :| 0 <= i < |idx.docs| && idx.docs[i].docId == d && idx.docs[i].segmentId == s;
      hide Mentions, Sorted, Valid;
      assert SameDoc(merged, e, Source(idx, idx.docs[i], n), d);
      assert Source(idx, idx.docs[i], n) == EMPTY_SEGMENT;
      SameMentions(merged, e, EMPTY_SEGMENT, d);
      BlankMentions(d);
    }
  }

  lemma MergedOneMore(idx: Index, r: Remapping, merged: Segment, next: Segment, n: nat)
    requires Valid(idx) && KnownIds(idx.docs, r) && n < |Active(idx)| && MergedUpTo(idx, r, merged, n)
    requires if Active(idx)[n] in idx.segments then Moves(next, merged, idx.segments[Active(idx)[n]], r)
             else next == merged
    ensures MergedUpTo(idx, r, next, n + 1)
  {
    var s := Active(idx)[n];
    assert Active(idx)[..n + 1] == Active(idx)[..n] + [s];
    forall i, e: DocId | 0 <= i < |idx.docs| && r.Remap(idx.docs[i].docId) == Some(e)
      ensures SameDoc(next, e, Source(idx, idx.docs[i], n + 1), idx.docs[i].docId)
    {
      MergedOneDoc(idx, r, merged, next, n, i, e);
    }
    forall e: DocId | Unmapped(r, e)
      ensures !Mentions(next, e)
    {
      if s in idx.segments {
        SameMentions(next, e, merged, e);
      }
    }
  }

  lemma MergedOneDoc(idx: Index, r: Remapping, merged: Segment, next: Segment, n: nat, i: nat, e: DocId)
    requires Valid(idx) && KnownIds(idx.docs, r) && n < |Active(idx)| && MergedUpTo(idx, r, merged, n)
    requires if Active(idx)[n] in idx.segments then Moves(next, merged, idx.segments[Active(idx)[n]], r)
             else next == merged
    requires i < |idx.docs| && r.Remap(idx.docs[i].docId) == Some(e)
    ensures SameDoc(next, e, Source(idx, idx.docs[i], n + 1), idx.docs[i].docId)
  {
    hide Sorted, OneLive, SegmentsPresent, PathIdsIn;
    var s, d := Active(idx)[n], idx.docs[i].docId;
    assert Active(idx)[..n + 1] == Active(idx)[..n] + [s];
    assert s !in Active(idx)[..n];
    assert SameDoc(merged, e, Source(idx, idx.docs[i], n), d);
    if s in idx.segments {
      assert SegmentSound(idx, s);
      assert MovesDoc(next, merged, idx.segments[s], d, e);
      if Mentions(idx.segments[s], d) {
        assert Owns(idx.docs, d, s);
        var j :| 0 <= j < |idx.docs| && idx.docs[j].docId == d && idx.docs[j].segmentId == s;
        assert j == i;
      } else if idx.docs[i].segmentId == s {
        BlankDoc(idx.segments[s], d);
      }
    }
  }

  /** Not mentioned is the same as blank. */
  lemma BlankDoc(seg: Segment, d: DocId)
    requires !Mentions(seg, d)
    ensures SameDoc(seg, d, EMPTY_SEGMENT, d)
  {
    BlankMentions(d);
  }

  method MergeAllSegments(idx: Index, r: Remapping) returns (merged: Segment)
    requires Valid(idx) && KnownIds(idx.docs, r)
    ensures MergedUpTo(idx, r, merged, |Active(idx)|)
  {
    hide Valid, MergedUpTo, Moves, KnownIds;
    merged := EMPTY_SEGMENT;
    var segmentIds := Active(idx);
    var n := 0;
    MergedNone(idx, r);
    while n < |segmentIds|
      invariant 0 <= n <= |segmentIds| && MergedUpTo(idx, r, merged, n)
    {
      var s := segmentIds[n];
      if s in idx.segments {
        NextSeparate(idx, r, merged, n);
        assert Injective(r) by { InjectiveIds(idx.docs, r); }
        var next := MergeSegment(merged, idx.segments[s], r);
        MergedOneMore(idx, r, merged, next, n);
        merged := next;
      } else {
        MergedOneMore(idx, r, merged, merged, n);
      }
      n := n + 1;
    }
  }

  lemma InjectiveIds(docs: seq<Document>, r: Remapping)
    requires KnownIds(docs, r)
    ensures Injective(r)
  {
  }

  lemma MergedNone(idx: Index, r: Remapping)
    ensures MergedUpTo(idx, r, EMPTY_SEGMENT, 0)
  {
    forall i, e: DocId | 0 <= i < |idx.docs| && r.Remap(idx.docs[i].docId) == Some(e)
      ensures SameDoc(EMPTY_SEGMENT, e, Source(idx, idx.docs[i], 0), idx.docs[i].docId)
    {
      var d := idx.docs[i].docId;
      assert DataIn(EMPTY_SEGMENT, e) == FileData({}, map[], None) == DataIn(EMPTY_SEGMENT, d);
      assert TrigramsIn(EMPTY_SEGMENT, e) == {} == TrigramsIn(EMPTY_SEGMENT, d);
    }
    forall e: DocId
      ensures !Mentions(EMPTY_SEGMENT, e)
    {
      BlankMentions(e);
    }
  }

  // -------------------------------------------------------- sorting the lists

  function SortLists<K>(m: Postings<K>): Postings<K> {
    map k | k in m :: SortDedup(m[k])
  }

  lemma SortedKeys<K>(m: Postings<K>, e: DocId)
    ensures KeysWith(SortLists(m), e) == KeysWith(m, e)
  {
    assert forall k :: k in m ==> (e in SortDedup(m[k]) <==> e in m[k]);
  }

  // ---------------------------------------------------------------- stop-grams

  const MAX_STOP_GRAMS := 512

  /** Too common to narrow: in more than half of the documents. */
  predicate Hot(freq: map<Trigram, nat>, docCount: nat, t: Trigram) {
    t in freq && freq[t] >= docCount / 2 + 1
  }

  ghost predicate StopGramChoice(stop: set<Trigram>, freq: map<Trigram, nat>, docCount: nat, cap: nat) {
    && (forall t :: t in stop ==> Hot(freq, docCount, t))
    && |stop| <= cap
    && (|stop| < cap ==> forall t :: Hot(freq, docCount, t) ==> t in stop)
    && (forall t, u :: t in stop && Hot(freq, docCount, u) && u !in stop ==> freq[u] <= freq[t])
  }

  /** `select_stop_grams`: hottest first, up to `cap`. */
  method SelectStopGrams(freq: map<Trigram, nat>, docCount: nat, cap: nat) returns (stop: set<Trigram>)
    ensures StopGramChoice(stop, freq, docCount, cap)
  {
    stop := {};
    var hot := set t | t in freq && Hot(freq, docCount, t);
    while hot != {} && |stop| < cap
      invariant forall t :: Hot(freq, docCount, t) <==> t in hot || t in stop
      invariant hot !! stop && |stop| <= cap
      invariant forall t, u :: t in stop && u in hot ==> freq[u] <= freq[t]
      decreases hot
    {
      Hottest(hot, freq);
      var t :| t in hot && forall u :: u in hot ==> freq[u] <= freq[t];
      hot := hot - {t};
      stop := stop + {t};
    }
  }

  lemma Hottest(hot: set<Trigram>, freq: map<Trigram, nat>)
    requires hot != {} && hot <= freq.Keys
    ensures exists t :: t in hot && forall u :: u in hot ==> freq[u] <= freq[t]
  {
    var x :| x in hot;
    if hot != {x} {
      Hottest(hot - {x}, freq);
      var y :| y in hot - {x} && forall u :: u in hot - {x} ==> freq[u] <= freq[y];
      var top := if freq[x] > freq[y] then x else y;
      assert forall u :: u in hot ==> u == x || u in hot - {x};
      assert top in hot && forall u :: u in hot ==> freq[u] <= freq[top];
    }
  }

  // --------------------------------------------------------------- compaction

  function Frequencies(m: Postings<Trigram>): map<Trigram, nat> {
    map t | t in m :: |m[t]|
  }

  function Without(m: Postings<Trigram>, stop: set<Trigram>): Postings<Trigram> {
    map t | t in m && t !in stop :: m[t]
  }

  /** The segment written to disk. */
  function Written(merged: Segment, stop: set<Trigram>): Segment {
    Segment(Without(SortLists(merged.trigrams), stop), SortLists(merged.tokens), merged.positions, merged.lineMaps)
  }

  /** The index after compaction. */
  function Rewritten(idx: Index, r: Remapping, merged: Segment, stop: set<Trigram>): Index {
    Index(r.validDocs, r.validPaths, map[1 := Written(merged, stop)], Some(1), [], stop, idx.rejected)
  }

  function TombstoneCount(docs: seq<Document>): nat {
    if docs == [] then 0 else TombstoneCount(docs[..|docs| - 1]) + if docs[|docs| - 1].tombstone then 1 else 0
  }

  /** `merge_segments` returns early. */
  predicate NothingToMerge(idx: Index) {
    Active(idx) == [] || (|Active(idx)| == 1 && TombstoneCount(idx.docs) == 0)
  }

  ghost predicate IsCompaction(idx: Index, c: Index) {
    var r := RemapFirst(idx.docs, idx.paths, |idx.docs|);
    exists merged :: CompactedBy(idx, c, r, merged)
  }

  ghost predicate CompactedBy(idx: Index, c: Index, r: Remapping, merged: Segment) {
    && MergedUpTo(idx, r, merged, |Active(idx)|)
    && StopGramChoice(c.stopGrams, Frequencies(SortLists(merged.trigrams)), |r.validDocs|, MAX_STOP_GRAMS)
    && c == Rewritten(idx, r, merged, c.stopGrams)
  }

  method CountTombstones(docs: seq<Document>) returns (n: nat)
    ensures n == TombstoneCount(docs)
  {
    n := 0;
    var i := 0;
    while i < |docs|
      invariant 0 <= i <= |docs| && n == TombstoneCount(docs[..i])
    {
      assert docs[..i + 1][..i] == docs[..i];
      if docs[i].tombstone {
        n := n + 1;
      }
      i := i + 1;
    }
    assert docs[..i] == docs;
  }

  method MergeSegments(idx: Index) returns (c: Index)
    requires Valid(idx)
    ensures NothingToMerge(idx) ==> c == idx
    ensures !NothingToMerge(idx) ==> IsCompaction(idx, c)
  {
    var tombstones := CountTombstones(idx.docs);
    if |Active(idx)| == 0 || (|Active(idx)| == 1 && tombstones == 0) {
      return idx;
    }
    hide Valid, MergedUpTo, RemapFirst;
    var r := BuildDocIdRemapping(idx.docs, idx.paths);
    RemapKnowsIds(idx);
    var merged := MergeAllSegments(idx, r);
    var stop := SelectStopGrams(Frequencies(SortLists(merged.trigrams)), |r.validDocs|, MAX_STOP_GRAMS);
    c := Rewritten(idx, r, merged, stop);
    assert CompactedBy(idx, c, r, merged);
  }

  // ------------------------------------------------------------- when it is done

  const COMPACTION_TOMBSTONE_PERCENT := 15

  /** Too many buried documents, or too many deltas since the last build. */
  predicate Fragmented(idx: Index, deltaBaseline: nat, segmentThreshold: nat) {
    || TombstoneCount(idx.docs) * 100 > COMPACTION_TOMBSTONE_PERCENT * |idx.docs|
    || (if |idx.deltas| > deltaBaseline then |idx.deltas| - deltaBaseline else 0) >= segmentThreshold
  }

  /** What is left of a written index: compacted if it is fragmented, and as it is otherwise. */
  ghost predicate Settles(idx: Index, deltaBaseline: nat, segmentThreshold: nat, u: Index) {
    if Fragmented(idx, deltaBaseline, segmentThreshold) && !NothingToMerge(idx) then IsCompaction(idx, u) else u == idx
  }

  method CompactIfFragmented(idx: Index, deltaBaseline: nat, segmentThreshold: nat) returns (u: Index)
    requires Valid(idx)
    ensures Settles(idx, deltaBaseline, segmentThreshold, u)
  {
    hide Valid, IsCompaction;
    var tombstones := CountTombstones(idx.docs);
    var newDeltas := if |idx.deltas| > deltaBaseline then |idx.deltas| - deltaBaseline else 0;
    u := idx;
    if tombstones * 100 > COMPACTION_TOMBSTONE_PERCENT * |idx.docs| || newDeltas >= segmentThreshold {
      u := MergeSegments(idx);
    }
  }

  lemma {:induction false} RemapOnlyValid(docs: seq<Document>, paths: seq<Path>, n: nat, d: DocId)
    requires n <= |docs| && RemapFirst(docs, paths, n).Remap(d).Some?
    ensures exists i :: 0 <= i < n && docs[i].docId == d && docs[i].IsValid()
  {
    if n > 0 {
      MaxIdBounds(docs);
      var before := RemapFirst(docs, paths, n - 1);
      if before.Remap(d).Some? {
        RemapOnlyValid(docs, paths, n - 1, d);
      } else {
        assert docs[n - 1].docId == d && docs[n - 1].IsValid();
      }
    }
  }

  /** The remapping touches only valid documents of the table, each differently. */
  lemma RemapKnowsIds(idx: Index)
    requires Valid(idx)
    ensures KnownIds(idx.docs, RemapFirst(idx.docs, idx.paths, |idx.docs|))
  {
    var r := RemapFirst(idx.docs, idx.paths, |idx.docs|);
    RemapsAll(idx.docs, idx.paths, |idx.docs|);
    hide RemapFirst;
    forall d | r.Remap(d).Some?
      ensures exists i :: 0 <= i < |idx.docs| && idx.docs[i].docId == d
    {
      RemapOnlyValid(idx.docs, idx.paths, |idx.docs|, d);
    }
    forall c, d | r.Remap(c).Some? && r.Remap(c) == r.Remap(d)
      ensures c == d
    {
      RemapOnlyValid(idx.docs, idx.paths, |idx.docs|, c);
      RemapOnlyValid(idx.docs, idx.paths, |idx.docs|, d);
      var i :| 0 <= i < |idx.docs| && idx.docs[i].docId == c && idx.docs[i].IsValid();
      var j :| 0 <= j < |idx.docs| && idx.docs[j].docId == d && idx.docs[j].IsValid();
      assert RemapsDoc(idx.docs, idx.paths, r, i) && RemapsDoc(idx.docs, idx.paths, r, j);
      if i < j { RankGrows(idx.docs, i, j); } else { RankGrows(idx.docs, j, i); }
    }
  }
}
