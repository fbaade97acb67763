/**
  The full build's way to a segment (src/index/writer.rs:227-333, 503-590):
  flat lists, interned tokens, lexicographic ranks, integer sorts, grouping and
  a lockstep join. It must come to what inserting into sorted maps comes to.
*/
module FlatWriter {
  import opened Prelude
  import opened Sorting
  import opened Text
  import opened Index
  import opened SegmentBuilder
  import opened Grouping

  /** A token of the dictionary with its documents and, where known, its positions. */
  datatype TokenEntry = TokenEntry(token: Token, docs: seq<DocId>, places: seq<DocPlaces>)

  // ------------------------------------------------------- sorted maps as lists

  /** `groups` is what iterating the sorted map `m` gives. */
  ghost predicate Iterates(groups: seq<Group>, m: Postings<Trigram>) {
    && (forall i, j :: 0 <= i < j < |groups| ==> groups[i].key < groups[j].key)
    && (forall g :: g in groups ==> g.key in m && m[g.key] == g.docs)
    && (forall t :: t in m ==> exists g :: g in groups && g.key == t)
  }

  ghost predicate RowListed(places: seq<DocPlaces>, row: map<DocId, seq<nat>>) {
    && (forall i, j :: 0 <= i < j < |places| ==> places[i].doc < places[j].doc)
    && (forall e :: e in places ==> e.doc in row && row[e.doc] == e.positions)
    && (forall d :: d in row ==> exists e :: e in places && e.doc == d)
  }

  predicate StrictlyBefore(p: string, q: string) {
    Before(p, q) && p != q
  }

  /** `entries` is what iterating the sorted token map gives, each token with its row of positions. */
  ghost predicate TokensListed(entries: seq<TokenEntry>, m: Postings<Token>, pm: PositionPostings) {
    && (forall i, j :: 0 <= i < j < |entries| ==> StrictlyBefore(entries[i].token, entries[j].token))
    && (forall e :: e in entries ==> e.token in m && m[e.token] == e.docs && RowListed(e.places, Row(pm, e.token)))
    && (forall t :: t in m ==> exists e :: e in entries && e.token == t)
  }

  /** Rising lists with the same elements are the same list. */
  lemma {:induction false} RisingUnique<T(!new)>(le: (T, T) -> bool, s: seq<T>, t: seq<T>)
    requires forall x, y :: le(x, y) && le(y, x) ==> x == y
    requires SortedBy(le, s) && SortedBy(le, t) && Distinct(s) && Distinct(t)
    requires forall x :: x in s <==> x in t
    ensures s == t
    decreases |s|
  {
    if s == [] {
      if t != [] {
        HasMember(t);
      }
    } else {
      var x, init := s[|s| - 1], s[..|s| - 1];
      assert x in t && t[|t| - 1] in s;
      LastIsTop(le, s, t[|t| - 1]);
      LastIsTop(le, t, x);
      var rest := t[..|t| - 1];
      assert s == init + [x] && t == rest + [x];
      assert x !in init && x !in rest;
      forall y
        ensures y in init <==> y in rest
      {
        assert y in s <==> y in init || y == x;
        assert y in t <==> y in rest || y == x;
      }
      RisingUnique(le, init, rest);
    }
  }

  lemma HasMember<T>(t: seq<T>)
    requires t != []
    ensures exists x :: x in t
  {
    assert t[0] in t;
  }

  lemma LastIsTop<T(!new)>(le: (T, T) -> bool, s: seq<T>, x: T)
    requires SortedBy(le, s) && x in s
    ensures x == s[|s| - 1] || le(x, s[|s| - 1])
  {
  }

  lemma {:induction false} AscendingUnique(s: seq<int>, t: seq<int>)
    requires Ascending(s) && Ascending(t) && forall x :: x in s <==> x in t
    ensures s == t
  {
    var le := (x: int, y: int) => x <= y;
    assert SortedBy(le, s) && SortedBy(le, t) && Distinct(s) && Distinct(t);
    hide Ascending, Distinct, SortedBy;
    forall x: int
      ensures x in s <==> x in t
    {
    }
    RisingUnique(le, s, t);
  }

  lemma {:induction false} RowUnique(a: seq<DocPlaces>, b: seq<DocPlaces>, row: map<DocId, seq<nat>>)
    requires RowListed(a, row) && RowListed(b, row)
    ensures a == b
  {
    var docsA, docsB := seq(|a|, i requires 0 <= i < |a| => a[i].doc), seq(|b|, i requires 0 <= i < |b| => b[i].doc);
    forall d
      ensures d in docsA <==> d in row
      ensures d in docsB <==> d in row
    {
      RowDocs(a, row, docsA, d);
      RowDocs(b, row, docsB, d);
    }
    AscendingUnique(docsA, docsB);
    forall i | 0 <= i < |a|
      ensures a[i] == b[i]
    {
      assert docsA[i] == a[i].doc && docsB[i] == b[i].doc;
      assert a[i] in a && b[i] in b;
    }
  }

  lemma RowDocs(a: seq<DocPlaces>, row: map<DocId, seq<nat>>, docs: seq<DocId>, d: int)
    requires RowListed(a, row) && |docs| == |a| && forall i :: 0 <= i < |a| ==> docs[i] == a[i].doc
    ensures d in docs <==> d in row
  {
    if d in docs {
      var i :| 0 <= i < |docs| && docs[i] == d;
      assert a[i] in a;
    }
    if d in row {
      var e :| e in a && e.doc == d;
      var i :| 0 <= i < |a| && a[i] == e;
      assert docs[i] == d;
    }
  }

  lemma TokenKeys(a: seq<TokenEntry>, m: Postings<Token>, pm: PositionPostings, tokens: seq<Token>, t: Token)
    requires TokensListed(a, m, pm) && |tokens| == |a| && forall i :: 0 <= i < |a| ==> tokens[i] == a[i].token
    ensures t in tokens <==> t in m
  {
    hide RowListed;
    if t in tokens {
      var i :| 0 <= i < |tokens| && tokens[i] == t;
      assert a[i] in a;
    }
    if t in m {
      var e :| e in a && e.token == t;
      var i :| 0 <= i < |a| && a[i] == e;
      assert tokens[i] == t;
    }
  }

  lemma GroupKeys(a: seq<Group>, m: Postings<Trigram>, keys: seq<nat>, t: int)
    requires Iterates(a, m) && |keys| == |a| && forall i :: 0 <= i < |a| ==> keys[i] == a[i].key
    ensures t in keys <==> t in m
  {
    if t in keys {
      var i :| 0 <= i < |keys| && keys[i] == t;
      assert a[i] in a;
    }
    if t in m {
      var g :| g in a && g.key == t;
      var i :| 0 <= i < |a| && a[i] == g;
      assert keys[i] == t;
    }
  }

  /** A sorted map is iterated in one way only. */
  lemma TrigramsUnique(a: seq<Group>, b: seq<Group>, m: Postings<Trigram>)
    requires Iterates(a, m) && Iterates(b, m)
    ensures a == b
  {
    var left, right := seq(|a|, i requires 0 <= i < |a| => a[i].key), seq(|b|, i requires 0 <= i < |b| => b[i].key);
    forall t: int
      ensures t in left <==> t in right
    {
      GroupKeys(a, m, left, t);
      GroupKeys(b, m, right, t);
    }
    AscendingUnique(left, right);
    forall i | 0 <= i < |a|
      ensures a[i] == b[i]
    {
      assert left[i] == a[i].key && right[i] == b[i].key;
      assert a[i] in a && b[i] in b;
    }
  }

  lemma TokensUnique(a: seq<TokenEntry>, b: seq<TokenEntry>, m: Postings<Token>, pm: PositionPostings)
    requires TokensListed(a, m, pm) && TokensListed(b, m, pm)
    ensures a == b
  {
    hide RowListed, Before;
    var left, right := seq(|a|, i requires 0 <= i < |a| => a[i].token), seq(|b|, i requires 0 <= i < |b| => b[i].token);
    forall t: Token
      ensures t in left <==> t in right
    {
      TokenKeys(a, m, pm, left, t);
      TokenKeys(b, m, pm, right, t);
    }
    forall x: string, y: string | Before(x, y) && Before(y, x)
      ensures x == y
    {
      BeforeBoth(x, y);
    }
    RisingUnique(Before, left, right);
    forall i | 0 <= i < |a|
      ensures a[i] == b[i]
    {
      assert left[i] == a[i].token && right[i] == b[i].token;
      assert a[i] in a && b[i] in b;
      RowUnique(a[i].places, b[i].places, Row(pm, a[i].token));
    }
  }

  // ------------------------------------------------------------- the plain lists

  /** The first `m` keys of a file, each with its document. */
  function FilePairs<K>(keys: seq<K>, m: nat, d: DocId): seq<(K, DocId)>
    requires m <= |keys|
  {
    if m == 0 then [] else FilePairs(keys, m - 1, d) + [(keys[m - 1], d)]
  }

  function TrigramPairs(first: DocId, files: seq<ProcessedFile>, n: nat): seq<(Trigram, DocId)>
    requires n <= |files|
  {
    if n == 0 then []
    else TrigramPairs(first, files, n - 1) + FilePairs(files[n - 1].trigrams, |files[n - 1].trigrams|, first + n - 1)
  }

  function TokenPairs(first: DocId, files: seq<ProcessedFile>, n: nat): seq<(Token, DocId)>
    requires n <= |files|
  {
    if n == 0 then []
    else TokenPairs(first, files, n - 1) + FilePairs(files[n - 1].tokens, |files[n - 1].tokens|, first + n - 1)
  }

  function FileTriples(f: ProcessedFile, m: nat, d: DocId): seq<(Token, DocId, nat)>
    requires WellFormedFile(f) && m <= |f.tokenPositions|
  {
    if m == 0 then []
    else FileTriples(f, m - 1, d) + [(f.tokens[f.tokenPositions[m - 1].0], d, f.tokenPositions[m - 1].1)]
  }

  function TokenTriples(first: DocId, files: seq<ProcessedFile>, n: nat): seq<(Token, DocId, nat)>
    requires n <= |files| && AllWellFormed(files)
  {
    if n == 0 then []
    else TokenTriples(first, files, n - 1) + FileTriples(files[n - 1], |files[n - 1].tokenPositions|, first + n - 1)
  }

  lemma {:induction false} InFilePairs<K>(keys: seq<K>, m: nat, d: DocId, x: (K, DocId))
    requires m <= |keys|
    ensures x in FilePairs(keys, m, d) <==> x.1 == d && x.0 in keys[..m]
  {
    if m > 0 {
      InFilePairs(keys, m - 1, d, x);
      assert keys[..m] == keys[..m - 1] + [keys[m - 1]];
    }
  }

  lemma {:induction false} InTrigramPairs(first: DocId, files: seq<ProcessedFile>, n: nat, t: Trigram, d: DocId)
    requires n <= |files|
    ensures (t, d) in TrigramPairs(first, files, n) <==> first <= d < first + n && t in files[d - first].trigrams
  {
    hide FilePairs;
    if n > 0 {
      InTrigramPairs(first, files, n - 1, t, d);
      var keys := files[n - 1].trigrams;
      InFilePairs(keys, |keys|, first + n - 1, (t, d));
      assert keys[..|keys|] == keys;
    }
  }

  lemma {:induction false} InTokenPairs(first: DocId, files: seq<ProcessedFile>, n: nat, t: Token, d: DocId)
    requires n <= |files|
    ensures (t, d) in TokenPairs(first, files, n) <==> first <= d < first + n && t in files[d - first].tokens
  {
    hide FilePairs;
    if n > 0 {
      InTokenPairs(first, files, n - 1, t, d);
      var keys := files[n - 1].tokens;
      InFilePairs(keys, |keys|, first + n - 1, (t, d));
      assert keys[..|keys|] == keys;
    }
  }

  /** Token `t` stands at word `p` of the file, among its first `m` occurrences. */
  ghost predicate Occurs(f: ProcessedFile, m: nat, t: Token, p: nat)
    requires WellFormedFile(f) && m <= |f.tokenPositions|
  {
    exists k :: 0 <= k < m && f.tokens[f.tokenPositions[k].0] == t && f.tokenPositions[k].1 == p
  }

  lemma OccursStep(f: ProcessedFile, m: nat, t: Token, p: nat)
    requires WellFormedFile(f) && 0 < m <= |f.tokenPositions|
    ensures Occurs(f, m, t, p) <==>
            Occurs(f, m - 1, t, p) || (f.tokens[f.tokenPositions[m - 1].0] == t && f.tokenPositions[m - 1].1 == p)
  {
  }

  lemma {:induction false} InFileTriples(f: ProcessedFile, m: nat, d: DocId, t: Token, e: DocId, p: nat)
    requires WellFormedFile(f) && m <= |f.tokenPositions|
    ensures (t, e, p) in FileTriples(f, m, d) <==> e == d && Occurs(f, m, t, p)
  {
    if m > 0 {
      InFileTriples(f, m - 1, d, t, e, p);
      OccursStep(f, m, t, p);
      hide Occurs, WellFormedFile;
    }
  }

  lemma {:induction false} InTokenTriples(first: DocId, files: seq<ProcessedFile>, n: nat, t: Token, d: DocId, p: nat)
    requires n <= |files| && AllWellFormed(files)
    ensures (t, d, p) in TokenTriples(first, files, n) <==>
            first <= d < first + n && Occurs(files[d - first], |files[d - first].tokenPositions|, t, p)
  {
    hide FileTriples, Occurs, WellFormedFile;
    if n > 0 {
      InTokenTriples(first, files, n - 1, t, d, p);
      var f := files[n - 1];
      InFileTriples(f, |f.tokenPositions|, first + n - 1, t, d, p);
      assert TokenTriples(first, files, n) ==
             TokenTriples(first, files, n - 1) + FileTriples(f, |f.tokenPositions|, first + n - 1);
      hide TokenTriples;
    }
  }

  // ------------------------------------------------------------------- interning

  /** Dense ids and the tokens they stand for. */
  ghost predicate Interned(tokenIds: map<Token, nat>, symbols: seq<Token>) {
    && |tokenIds| == |symbols|
    && (forall t :: t in tokenIds ==> tokenIds[t] < |symbols| && symbols[tokenIds[t]] == t)
    && (forall i :: 0 <= i < |symbols| ==> symbols[i] in tokenIds && tokenIds[symbols[i]] == i)
  }

  /** `named` is `pairs` with each id replaced by what it stands for. */
  ghost predicate Names(symbols: seq<Token>, pairs: seq<Pair>, named: seq<(Token, DocId)>) {
    && |pairs| == |named|
    && forall i :: 0 <= i < |pairs| ==> pairs[i].0 < |symbols| && named[i] == (symbols[pairs[i].0], pairs[i].1)
  }

  ghost predicate NamesAll(symbols: seq<Token>, triples: seq<Triple>, named: seq<(Token, DocId, nat)>) {
    && |triples| == |named|
    && forall i :: 0 <= i < |triples| ==>
         triples[i].0 < |symbols| && named[i] == (symbols[triples[i].0], triples[i].1, triples[i].2)
  }

  /** `*token_ids.entry(token).or_insert(next_id)`. */
  method Intern(tokenIds: map<Token, nat>, ghost symbols: seq<Token>, token: Token)
    returns (ids: map<Token, nat>, id: nat, ghost more: seq<Token>)
    requires Interned(tokenIds, symbols)
    ensures Interned(ids, more) && symbols <= more
    ensures id < |more| && more[id] == token
  {
    if token in tokenIds {
      return tokenIds, tokenIds[token], symbols;
    }
    id := |tokenIds|;
    ids := tokenIds[token := id];
    more := symbols + [token];
  }

  /** The tokens of one file, pushed under their ids. */
  method CollectTokens(tokens: seq<Token>, d: DocId, ids: map<Token, nat>, ghost symbols: seq<Token>, pairs: seq<Pair>,
      ghost named: seq<(Token, DocId)>)
    returns (tokenIds: map<Token, nat>, ghost known: seq<Token>, tokenPairs: seq<Pair>, fileTokenIds: seq<nat>)
    requires Interned(ids, symbols) && Names(symbols, pairs, named)
    ensures Interned(tokenIds, known) && symbols <= known
    ensures Names(known, tokenPairs, named + FilePairs(tokens, |tokens|, d))
    ensures |fileTokenIds| == |tokens|
    ensures forall k :: 0 <= k < |tokens| ==> fileTokenIds[k] < |known| && known[fileTokenIds[k]] == tokens[k]
  {
    tokenIds, known, tokenPairs, fileTokenIds := ids, symbols, pairs, [];
    var k := 0;
    assert named + FilePairs(tokens, 0, d) == named;
    while k < |tokens|
      invariant 0 <= k <= |tokens| && Interned(tokenIds, known) && symbols <= known
      invariant Names(known, tokenPairs, named + FilePairs(tokens, k, d))
      invariant |fileTokenIds| == k
      invariant forall j :: 0 <= j < k ==> fileTokenIds[j] < |known| && known[fileTokenIds[j]] == tokens[j]
    {
      hide Interned, FilePairs;
      var id;
      tokenIds, id, known := Intern(tokenIds, known, tokens[k]);
      fileTokenIds := fileTokenIds + [id];
      tokenPairs := tokenPairs + [(id, d)];
      OneMore(named, tokens, k, d);
      k := k + 1;
    }
  }

  lemma OneMore<K>(named: seq<(K, DocId)>, keys: seq<K>, m: nat, d: DocId)
    requires m < |keys|
    ensures named + FilePairs(keys, m + 1, d) == (named + FilePairs(keys, m, d)) + [(keys[m], d)]
  {
  }

  method CollectPositions(f: ProcessedFile, d: DocId, fileTokenIds: seq<nat>, ghost symbols: seq<Token>,
      triples: seq<Triple>, ghost named: seq<(Token, DocId, nat)>)
    returns (positionTriples: seq<Triple>)
    requires WellFormedFile(f) && |fileTokenIds| == |f.tokens| && NamesAll(symbols, triples, named)
    requires forall k :: 0 <= k < |f.tokens| ==> fileTokenIds[k] < |symbols| && symbols[fileTokenIds[k]] == f.tokens[k]
    ensures NamesAll(symbols, positionTriples, named + FileTriples(f, |f.tokenPositions|, d))
  {
    positionTriples := triples;
    var k := 0;
    assert named + FileTriples(f, 0, d) == named;
    while k < |f.tokenPositions|
      invariant 0 <= k <= |f.tokenPositions|
      invariant NamesAll(symbols, positionTriples, named + FileTriples(f, k, d))
    {
      var idx, pos := f.tokenPositions[k].0, f.tokenPositions[k].1;
      positionTriples := positionTriples + [(fileTokenIds[idx], d, pos)];
      assert named + FileTriples(f, k + 1, d) == (named + FileTriples(f, k, d)) + [(f.tokens[idx], d, pos)];
      k := k + 1;
    }
  }

  method CollectTrigrams(trigrams: seq<Trigram>, d: DocId, pairs: seq<Pair>) returns (trigramPairs: seq<Pair>)
    ensures trigramPairs == pairs + FilePairs(trigrams, |trigrams|, d)
  {
    trigramPairs := pairs;
    var k := 0;
    while k < |trigrams|
      invariant 0 <= k <= |trigrams| && trigramPairs == pairs + FilePairs(trigrams, k, d)
    {
      trigramPairs := trigramPairs + [(trigrams[k], d)];
      k := k + 1;
    }
  }

  /** What the first loop leaves. */
  datatype Collected = Collected(
    tokenIds: map<Token, nat>,
    trigramPairs: seq<Pair>,
    tokenPairs: seq<Pair>,
    positionTriples: seq<Triple>)

  ghost predicate CollectedOf(c: Collected, symbols: seq<Token>, first: DocId, files: seq<ProcessedFile>, n: nat)
    requires n <= |files| && AllWellFormed(files)
  {
    && Interned(c.tokenIds, symbols)
    && c.trigramPairs == TrigramPairs(first, files, n)
    && Names(symbols, c.tokenPairs, TokenPairs(first, files, n))
    && NamesAll(symbols, c.positionTriples, TokenTriples(first, files, n))
  }

  method Collect(first: DocId, files: seq<ProcessedFile>) returns (c: Collected, ghost symbols: seq<Token>)
    requires AllWellFormed(files)
    ensures CollectedOf(c, symbols, first, files, |files|)
  {
    c, symbols := Collected(map[], [], [], []), [];
    var n := 0;
    while n < |files|
      invariant 0 <= n <= |files| && CollectedOf(c, symbols, first, files, n)
    {
      var f, d := files[n], first + n;
      assert WellFormedFile(f);
      hide Interned, WellFormedFile, FilePairs, FileTriples;
      ghost var before := symbols;
      var trigramPairs := CollectTrigrams(f.trigrams, d, c.trigramPairs);
      var ids, tokenPairs, fileTokenIds;
      ids, symbols, tokenPairs, fileTokenIds :=
        CollectTokens(f.tokens, d, c.tokenIds, before, c.tokenPairs, TokenPairs(first, files, n));
      var triples := CollectPositions(f, d, fileTokenIds, symbols, c.positionTriples, TokenTriples(first, files, n));
      c := Collected(ids, trigramPairs, tokenPairs, triples);
      n := n + 1;
    }
  }

  /** The symbol table by id, filled in the map's own order. */
  method SymbolTable(tokenIds: map<Token, nat>, ghost known: seq<Token>) returns (symbols: seq<Token>)
    requires Interned(tokenIds, known)
    ensures symbols == known
  {
    var table := new Token[|tokenIds|];
    var rest := tokenIds;
    while rest != map[]
      invariant rest.Keys <= tokenIds.Keys && forall t :: t in rest ==> rest[t] == tokenIds[t]
      invariant forall i :: 0 <= i < table.Length && known[i] !in rest ==> table[i] == known[i]
      decreases |rest|
    {
      var token :| token in rest;
      table[rest[token]] := token;
      rest := rest - {token};
    }
    symbols := table[..];
  }

  // ----------------------------------------------------------------------- ranks

  function SymbolAt(symbols: seq<Token>, i: nat): Token {
    if i < |symbols| then symbols[i] else ""
  }

  /** Ids compared as the tokens they stand for. */
  function ById(symbols: seq<Token>): (nat, nat) -> bool {
    (a: nat, b: nat) => Before(SymbolAt(symbols, a), SymbolAt(symbols, b))
  }

  lemma ByIdIsOrder(symbols: seq<Token>)
    ensures TotalOrder(ById(symbols))
  {
    BeforeIsOrder();
    hide Before, SymbolAt;
  }

  function Indices(n: nat): seq<nat> {
    seq(n, i requires 0 <= i < n => i)
  }

  /** A sorted list of all ids. */
  ghost predicate Permutes(order: seq<nat>, n: nat) {
    && |order| == n && Distinct(order)
    && (forall i :: 0 <= i < n ==> order[i] < n)
    && (forall id: nat :: id < n ==> id in order)
  }

  lemma OrderPermutes(le: (nat, nat) -> bool, n: nat)
    ensures Permutes(SortBy(le, Indices(n)), n)
  {
    var ids := Indices(n);
    var order := SortBy(le, ids);
    assert Distinct(ids);
    SortKeepsDistinct(le, ids);
    SameMembers(order, ids);
    hide SortBy, Distinct;
    forall id: nat | id < n
      ensures id in order
    {
      assert ids[id] == id;
      assert id in ids;
    }
    forall i | 0 <= i < |order|
      ensures order[i] < n
    {
      assert order[i] in ids;
    }
  }

  /** Ranked symbols rise strictly, and each id's rank leads to its symbol. */
  ghost predicate Ranked(symbols: seq<Token>, rank: seq<nat>, sorted: seq<Token>) {
    && |rank| == |symbols| == |sorted|
    && (forall i, j :: 0 <= i < j < |sorted| ==> StrictlyBefore(sorted[i], sorted[j]))
    && (forall id :: 0 <= id < |symbols| ==> rank[id] < |sorted| && sorted[rank[id]] == symbols[id])
  }

  /** `rank[order[r]] = r`. */
  method Invert(order: seq<nat>) returns (rank: seq<nat>)
    requires Permutes(order, |order|)
    ensures |rank| == |order| && forall r :: 0 <= r < |order| ==> rank[order[r]] == r
  {
    var ranks := new nat[|order|];
    var r := 0;
    while r < |order|
      invariant 0 <= r <= |order|
      invariant forall q :: 0 <= q < r ==> ranks[order[q]] == q
    {
      ranks[order[r]] := r;
      r := r + 1;
    }
    rank := ranks[..];
  }

  lemma RanksLead(symbols: seq<Token>, order: seq<nat>, rank: seq<nat>, sorted: seq<Token>)
    requires Distinct(symbols) && Permutes(order, |symbols|) && SortedBy(ById(symbols), order)
    requires |rank| == |symbols| == |sorted|
    requires forall r :: 0 <= r < |symbols| ==> rank[order[r]] == r && sorted[r] == symbols[order[r]]
    ensures Ranked(symbols, rank, sorted)
  {
    hide Before;
    forall i, j | 0 <= i < j < |sorted|
      ensures StrictlyBefore(sorted[i], sorted[j])
    {
      assert ById(symbols)(order[i], order[j]);
    }
    forall id: nat | id < |symbols|
      ensures rank[id] < |sorted| && sorted[rank[id]] == symbols[id]
    {
      assert id in order;
      var q :| 0 <= q < |order| && order[q] == id;
    }
  }

  method Rank(symbols: seq<Token>) returns (rank: seq<nat>, symbolsSorted: seq<Token>)
    requires Distinct(symbols)
    ensures Ranked(symbols, rank, symbolsSorted)
  {
    var n := |symbols|;
    var order := SortBy(ById(symbols), Indices(n));
    OrderPermutes(ById(symbols), n);
    ByIdIsOrder(symbols);
    SortSorts(ById(symbols), Indices(n));
    hide TotalOrder, SortBy, ById, SortedBy, Distinct, Ranked;
    rank := Invert(order);
    symbolsSorted := seq(n, r requires 0 <= r < n => symbols[order[r]]);
    RanksLead(symbols, order, rank, symbolsSorted);
  }

  /** Ids replaced by ranks name the same things. */
  method RemapPairs(pairs: seq<Pair>, rank: seq<nat>, ghost symbols: seq<Token>, ghost sorted: seq<Token>,
      ghost named: seq<(Token, DocId)>)
    returns (remapped: seq<Pair>)
    requires Names(symbols, pairs, named) && Ranked(symbols, rank, sorted)
    ensures Names(sorted, remapped, named)
  {
    hide StrictlyBefore;
    remapped := seq(|pairs|, i requires 0 <= i < |pairs| => (rank[pairs[i].0], pairs[i].1));
  }

  method RemapTriples(triples: seq<Triple>, rank: seq<nat>, ghost symbols: seq<Token>, ghost sorted: seq<Token>,
      ghost named: seq<(Token, DocId, nat)>)
    returns (remapped: seq<Triple>)
    requires NamesAll(symbols, triples, named) && Ranked(symbols, rank, sorted)
    ensures NamesAll(sorted, remapped, named)
  {
    hide StrictlyBefore;
    remapped := seq(|triples|, i requires 0 <= i < |triples| => (rank[triples[i].0], triples[i].1, triples[i].2));
  }
}
