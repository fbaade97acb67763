/**
  Sorted flat lists cut into groups: the (key, document) pairs of the full build
  (src/index/writer.rs:404-434, 492-549) and its (token, document, position)
  triples (src/index/writer.rs:503-537).
*/
module Grouping {
  import opened Prelude
  import opened Sorting
  import opened Index

  type Pair = (nat, DocId)
  type Triple = (nat, DocId, nat)

  /** The documents of one key. */
  datatype Group = Group(key: nat, docs: seq<DocId>)

  /** The word positions of one document. */
  datatype DocPlaces = DocPlaces(doc: DocId, positions: seq<nat>)

  /** The word positions of one key, document by document. */
  datatype PlaceGroup = PlaceGroup(key: nat, places: seq<DocPlaces>)

  predicate PairLe(x: Pair, y: Pair) {
    x.0 < y.0 || (x.0 == y.0 && x.1 <= y.1)
  }

  predicate TripleLe(x: Triple, y: Triple) {
    x.0 < y.0 || (x.0 == y.0 && (x.1 < y.1 || (x.1 == y.1 && x.2 <= y.2)))
  }

  lemma Orders()
    ensures TotalOrder(PairLe) && TotalOrder(TripleLe)
  {
  }

  // ---------------------------------------------------------------------- pairs

  /** One group a key, keys rising, and in each group the documents paired with its key, each once. */
  ghost predicate Grouped(pairs: seq<Pair>, groups: seq<Group>) {
    && (forall i, j :: 0 <= i < j < |groups| ==> groups[i].key < groups[j].key)
    && (forall g :: g in groups ==> g.docs != [] && Ascending(g.docs))
    && (forall g: Group, d: DocId :: g in groups ==> (d in g.docs <==> (g.key, d) in pairs))
    && (forall x :: x in pairs ==> exists g :: g in groups && g.key == x.0)
  }

  predicate Begins(pairs: seq<Pair>, i: nat)
    requires i < |pairs|
  {
    i == 0 || pairs[i].0 != pairs[i - 1].0
  }

  /** The indices where a new key starts. */
  ghost predicate StartsAre(pairs: seq<Pair>, starts: seq<nat>, n: nat)
    requires n <= |pairs|
  {
    && (forall i, j :: 0 <= i < j < |starts| ==> starts[i] < starts[j])
    && (forall k :: 0 <= k < |starts| ==> starts[k] < n && Begins(pairs, starts[k]))
    && (forall i: nat :: i < n && Begins(pairs, i) ==> i in starts)
  }

  method GroupStarts(pairs: seq<Pair>) returns (starts: seq<nat>)
    requires pairs != []
    ensures starts != [] && starts[0] == 0 && StartsAre(pairs, starts, |pairs|)
  {
    starts := [0];
    var i := 1;
    while i < |pairs|
      invariant 1 <= i <= |pairs| && starts != [] && starts[0] == 0
      invariant StartsAre(pairs, starts, i)
    {
      if pairs[i].0 != pairs[i - 1].0 {
        assert Begins(pairs, i);
        starts := starts + [i];
      } else {
        assert !Begins(pairs, i);
      }
      i := i + 1;
    }
  }

  /** The documents of pairs that share a key, without repeats. */
  method DistinctDocs(pairs: seq<Pair>, start: nat, end: nat) returns (docs: seq<DocId>)
    requires start < end <= |pairs|
    requires forall i, j :: start <= i < j < end ==> pairs[i].1 <= pairs[j].1
    ensures docs != [] && Ascending(docs)
    ensures forall d: DocId :: d in docs <==> exists i :: start <= i < end && pairs[i].1 == d
  {
    docs := [];
    var i := start;
    while i < end
      invariant start <= i <= end
      invariant i > start ==> docs != [] && docs[|docs| - 1] == pairs[i - 1].1
      invariant i == start ==> docs == []
      invariant Ascending(docs)
      invariant forall d: DocId :: d in docs <==> exists k :: start <= k < i && pairs[k].1 == d
    {
      if docs == [] || docs[|docs| - 1] != pairs[i].1 {
        assert forall k :: 0 <= k < |docs| ==> docs[k] in docs;
        docs := docs + [pairs[i].1];
      }
      i := i + 1;
    }
  }

  /** A run of one key, after the groups before it. */
  lemma GroupAdded(pairs: seq<Pair>, groups: seq<Group>, lo: nat, hi: nat, g: Group)
    requires lo < hi <= |pairs| && Grouped(pairs[..lo], groups)
    requires forall i :: 0 <= i < lo ==> pairs[i].0 < g.key
    requires forall i :: lo <= i < hi ==> pairs[i].0 == g.key
    requires g.docs != [] && Ascending(g.docs)
    requires forall d: DocId :: d in g.docs <==> exists i :: lo <= i < hi && pairs[i].1 == d
    ensures Grouped(pairs[..hi], groups + [g])
  {
    var more := groups + [g];
    forall x
      ensures x in pairs[..hi] <==> x in pairs[..lo] || (x.0 == g.key && x.1 in g.docs)
    {
      if x.0 == g.key && x.1 in g.docs {
        var i :| lo <= i < hi && pairs[i].1 == x.1;
        assert pairs[..hi][i] == x;
      }
    }
    forall k | 0 <= k < |groups|
      ensures groups[k].key < g.key
    {
      var d := groups[k].docs[0];
      assert groups[k] in groups && d in groups[k].docs;
      assert (groups[k].key, d) in pairs[..lo];
    }
    forall x | x in pairs[..hi]
      ensures exists h :: h in more && h.key == x.0
    {
      if x in pairs[..lo] {
        var h :| h in groups && h.key == x.0;
        assert h in more;
      } else {
        assert g in more;
      }
    }
    assert forall x :: x in pairs[..lo] ==> x.0 < g.key;
    hide Ascending;
  }

  /** Between two starts the key does not change, and it has risen since. */
  lemma {:induction false} SameRun(pairs: seq<Pair>, starts: seq<nat>, k: nat, i: nat)
    requires SortedBy(PairLe, pairs) && StartsAre(pairs, starts, |pairs|) && k < |starts|
    requires starts[k] <= i < if k + 1 < |starts| then starts[k + 1] else |pairs|
    ensures i < |pairs| && pairs[i].0 == pairs[starts[k]].0
    decreases i
  {
    assert k + 1 < |starts| ==> starts[k + 1] in starts;
    if starts[k] < i {
      if i in starts {
        var m :| 0 <= m < |starts| && starts[m] == i;
        assert false;
      }
      SameRun(pairs, starts, k, i - 1);
    }
  }

  lemma RisenAt(pairs: seq<Pair>, starts: seq<nat>, k: nat)
    requires SortedBy(PairLe, pairs) && StartsAre(pairs, starts, |pairs|) && k < |starts|
    ensures starts[k] < |pairs| && forall i :: 0 <= i < starts[k] ==> pairs[i].0 < pairs[starts[k]].0
  {
    var s := starts[k];
    assert s in starts;
    forall i | 0 <= i < s
      ensures pairs[i].0 < pairs[s].0
    {
      assert PairLe(pairs[s - 1], pairs[s]);
      assert i < s - 1 ==> PairLe(pairs[i], pairs[s - 1]);
    }
  }

  lemma RunInOrder(pairs: seq<Pair>, starts: seq<nat>, k: nat, end: nat)
    requires SortedBy(PairLe, pairs) && StartsAre(pairs, starts, |pairs|) && k < |starts|
    requires end == if k + 1 < |starts| then starts[k + 1] else |pairs|
    ensures starts[k] < end <= |pairs|
    ensures forall i :: starts[k] <= i < end ==> pairs[i].0 == pairs[starts[k]].0
    ensures forall i, j :: starts[k] <= i < j < end ==> pairs[i].1 <= pairs[j].1
  {
    assert starts[k] in starts;
    assert k + 1 < |starts| ==> starts[k + 1] in starts;
    forall i | starts[k] <= i < end
      ensures pairs[i].0 == pairs[starts[k]].0
    {
      SameRun(pairs, starts, k, i);
    }
    forall i, j | starts[k] <= i < j < end
      ensures pairs[i].1 <= pairs[j].1
    {
      assert PairLe(pairs[i], pairs[j]);
    }
  }

  method GroupPairs(pairs: seq<Pair>) returns (groups: seq<Group>)
    requires SortedBy(PairLe, pairs)
    ensures Grouped(pairs, groups)
  {
    groups := [];
    if pairs == [] {
      return;
    }
    var starts := GroupStarts(pairs);
    var idx := 0;
    ghost var done := 0;
    while idx < |starts|
      invariant 0 <= idx <= |starts| && done <= |pairs|
      invariant done == if idx < |starts| then starts[idx] else |pairs|
      invariant Grouped(pairs[..done], groups)
    {
      var start := starts[idx];
      var end := if idx + 1 < |starts| then starts[idx + 1] else |pairs|;
      RunInOrder(pairs, starts, idx, end);
      RisenAt(pairs, starts, idx);
      hide Grouped, StartsAre, SortedBy;
      var docs := DistinctDocs(pairs, start, end);
      GroupAdded(pairs, groups, start, end, Group(pairs[start].0, docs));
      groups := groups + [Group(pairs[start].0, docs)];
      done := end;
      idx := idx + 1;
    }
    assert pairs[..|pairs|] == pairs;
  }

  // -------------------------------------------------------------------- triples

  /** Documents rising, and for each its positions, rising. */
  ghost predicate InOrder(places: seq<DocPlaces>) {
    && (forall i, j :: 0 <= i < j < |places| ==> places[i].doc < places[j].doc)
    && (forall e :: e in places ==> e.positions != [] && Ascending(e.positions))
  }

  ghost predicate Has(places: seq<DocPlaces>, d: DocId, p: nat) {
    exists e :: e in places && e.doc == d && p in e.positions
  }

  ghost predicate PlacesGrouped(triples: seq<Triple>, groups: seq<PlaceGroup>) {
    && (forall i, j :: 0 <= i < j < |groups| ==> groups[i].key < groups[j].key)
    && (forall g :: g in groups ==> g.places != [] && InOrder(g.places))
    && (forall g: PlaceGroup, d: DocId, p: nat :: g in groups ==> (Has(g.places, d, p) <==> (g.key, d, p) in triples))
    && (forall x :: x in triples ==> exists g :: g in groups && g.key == x.0)
  }

  ghost predicate StrictlySorted(triples: seq<Triple>) {
    SortedBy(TripleLe, triples) && Distinct(triples)
  }

  lemma StrictStep(triples: seq<Triple>, i: nat, j: nat)
    requires StrictlySorted(triples) && i < j < |triples|
    ensures triples[i].0 <= triples[j].0
    ensures triples[i].0 == triples[j].0 ==> triples[i].1 <= triples[j].1
    ensures triples[i].0 == triples[j].0 && triples[i].1 == triples[j].1 ==> triples[i].2 < triples[j].2
  {
    assert TripleLe(triples[i], triples[j]) && triples[i] != triples[j];
  }

  /** The first index from `i` on, before `end`, where the key changes. */
  method KeyEnd(triples: seq<Triple>, start: nat) returns (i: nat)
    requires start < |triples|
    ensures start < i <= |triples|
    ensures forall k :: start <= k < i ==> triples[k].0 == triples[start].0
    ensures i < |triples| ==> triples[i].0 != triples[start].0
  {
    i := start;
    while i < |triples| && triples[i].0 == triples[start].0
      invariant start <= i <= |triples|
      invariant forall k :: start <= k < i ==> triples[k].0 == triples[start].0
    {
      i := i + 1;
    }
  }

  method DocEnd(triples: seq<Triple>, start: nat, end: nat) returns (j: nat)
    requires start < end <= |triples|
    ensures start < j <= end
    ensures forall k :: start <= k < j ==> triples[k].1 == triples[start].1
    ensures j < end ==> triples[j].1 != triples[start].1
  {
    j := start;
    while j < end && triples[j].1 == triples[start].1
      invariant start <= j <= end
      invariant forall k :: start <= k < j ==> triples[k].1 == triples[start].1
    {
      j := j + 1;
    }
  }

  /** The triples of `lo..hi` as (document, position). */
  ghost predicate Within(triples: seq<Triple>, lo: nat, hi: nat, d: DocId, p: nat)
    requires lo <= hi <= |triples|
  {
    exists k :: lo <= k < hi && triples[k].1 == d && triples[k].2 == p
  }

  ghost predicate PlacesAre(triples: seq<Triple>, lo: nat, hi: nat, places: seq<DocPlaces>)
    requires lo <= hi <= |triples|
  {
    && InOrder(places)
    && forall d: DocId, p: nat :: Has(places, d, p) <==> Within(triples, lo, hi, d, p)
  }

  /** Positions of one document, after the documents before it. */
  lemma PlacesAdded(triples: seq<Triple>, lo: nat, mid: nat, hi: nat, places: seq<DocPlaces>, e: DocPlaces)
    requires lo <= mid < hi <= |triples| && PlacesAre(triples, lo, mid, places)
    requires forall k :: lo <= k < mid ==> triples[k].1 < e.doc
    requires forall k :: mid <= k < hi ==> triples[k].1 == e.doc
    requires |e.positions| == hi - mid && Ascending(e.positions)
    requires forall k :: 0 <= k < hi - mid ==> e.positions[k] == triples[mid + k].2
    ensures PlacesAre(triples, lo, hi, places + [e])
  {
    var more := places + [e];
    hide Ascending;
    forall k | 0 <= k < |places|
      ensures places[k].doc < e.doc
    {
      var p := places[k].positions[0];
      assert places[k] in places && p in places[k].positions;
      assert Has(places, places[k].doc, p);
    }
    forall d: DocId, p: nat
      ensures Has(more, d, p) <==> Within(triples, lo, hi, d, p)
    {
      HasMore(places, e, d, p);
      if Within(triples, lo, hi, d, p) {
        var k :| lo <= k < hi && triples[k].1 == d && triples[k].2 == p;
        if k < mid {
          assert Within(triples, lo, mid, d, p);
        } else {
          assert e.positions[k - mid] == p;
        }
      }
      if p in e.positions && d == e.doc {
        var k :| 0 <= k < hi - mid && e.positions[k] == p;
        assert triples[mid + k].1 == d && triples[mid + k].2 == p;
      }
    }
  }

  lemma HasMore(places: seq<DocPlaces>, e: DocPlaces, d: DocId, p: nat)
    ensures Has(places + [e], d, p) <==> Has(places, d, p) || (e.doc == d && p in e.positions)
  {
    if Has(places, d, p) {
      var x :| x in places && x.doc == d && p in x.positions;
      assert x in places + [e];
    }
    if e.doc == d && p in e.positions {
      assert e in places + [e];
    }
  }

  /** The positions of one key, its triples being `start..end`. */
  method GroupByDoc(triples: seq<Triple>, start: nat, end: nat) returns (places: seq<DocPlaces>)
    requires StrictlySorted(triples) && start < end <= |triples|
    requires forall k :: start <= k < end ==> triples[k].0 == triples[start].0
    ensures places != [] && PlacesAre(triples, start, end, places)
  {
    places := [];
    var j := start;
    while j < end
      invariant start <= j <= end
      invariant PlacesAre(triples, start, j, places) && (j > start ==> places != [])
      invariant start < j < end ==> triples[j - 1].1 < triples[j].1
    {
      var docId, docStart := triples[j].1, j;
      j := DocEnd(triples, docStart, end);
      forall i, k | start <= i < k < end
        ensures triples[i].1 <= triples[k].1 && (triples[i].1 == triples[k].1 ==> triples[i].2 < triples[k].2)
      {
        StrictStep(triples, i, k);
      }
      hide StrictlySorted, PlacesAre;
      var positions := seq(j - docStart, k requires 0 <= k < j - docStart => triples[docStart + k].2);
      PlacesAdded(triples, start, docStart, j, places, DocPlaces(docId, positions));
      places := places + [DocPlaces(docId, positions)];
    }
  }

  lemma PlaceGroupAdded(triples: seq<Triple>, groups: seq<PlaceGroup>, lo: nat, hi: nat, g: PlaceGroup)
    requires lo < hi <= |triples| && PlacesGrouped(triples[..lo], groups)
    requires forall i :: 0 <= i < lo ==> triples[i].0 < g.key
    requires forall i :: lo <= i < hi ==> triples[i].0 == g.key
    requires g.places != [] && PlacesAre(triples, lo, hi, g.places)
    ensures PlacesGrouped(triples[..hi], groups + [g])
  {
    var more := groups + [g];
    forall x
      ensures x in triples[..hi] <==> x in triples[..lo] || (x.0 == g.key && Has(g.places, x.1, x.2))
    {
      if x.0 == g.key && Has(g.places, x.1, x.2) {
        var k :| lo <= k < hi && triples[k].1 == x.1 && triples[k].2 == x.2;
        assert triples[..hi][k] == x;
      }
      if x in triples[..hi] && x !in triples[..lo] {
        assert triples[..hi] == triples[..lo] + triples[lo..hi];
        var k :| 0 <= k < hi - lo && triples[lo..hi][k] == x;
        assert triples[lo + k] == x;
        assert Within(triples, lo, hi, x.1, x.2);
      }
    }
    hide Within, PlacesAre;
    forall k | 0 <= k < |groups|
      ensures groups[k].key < g.key
    {
      var e := groups[k].places[0];
      assert groups[k] in groups && e in groups[k].places;
      assert e.positions[0] in e.positions;
      assert Has(groups[k].places, e.doc, e.positions[0]);
      assert (groups[k].key, e.doc, e.positions[0]) in triples[..lo];
    }
    assert InOrder(g.places) by { InOrderOf(triples, lo, hi, g.places); }
    assert forall x :: x in triples[..lo] ==> x.0 < g.key;
    hide InOrder, Has;
    forall x: Triple | x in triples[..hi]
      ensures exists h :: h in more && h.key == x.0
    {
      if x in triples[..lo] {
        var h :| h in groups && h.key == x.0;
        assert h in more;
      } else {
        assert g in more;
      }
    }
  }

  lemma InOrderOf(triples: seq<Triple>, lo: nat, hi: nat, places: seq<DocPlaces>)
    requires lo <= hi <= |triples| && PlacesAre(triples, lo, hi, places)
    ensures InOrder(places)
  {
  }

  method GroupTriples(triples: seq<Triple>) returns (groups: seq<PlaceGroup>)
    requires StrictlySorted(triples)
    ensures PlacesGrouped(triples, groups)
  {
    groups := [];
    var i := 0;
    while i < |triples|
      invariant 0 <= i <= |triples| && PlacesGrouped(triples[..i], groups)
      invariant 0 < i < |triples| ==> triples[i - 1].0 < triples[i].0
    {
      var key, start := triples[i].0, i;
      i := KeyEnd(triples, start);
      var places := GroupByDoc(triples, start, i);
      forall j, k | 0 <= j < k < |triples|
        ensures triples[j].0 <= triples[k].0
      {
        StrictStep(triples, j, k);
      }
      hide PlacesGrouped, StrictlySorted, PlacesAre;
      PlaceGroupAdded(triples, groups, start, i, PlaceGroup(key, places));
      groups := groups + [PlaceGroup(key, places)];
    }
    assert triples[..|triples|] == triples;
  }
}
