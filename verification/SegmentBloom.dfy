/**
  The bloom filter of a segment, from the writers to the reader
  (src/index/writer.rs:311-323, src/index/segment_io.rs:190-217,
  src/index/reader.rs:1084-1113): every trigram of the segment is inserted, and
  the filter read back answers for the segment.
*/
module SegmentBloom {
  import opened Prelude
  import opened Index
  import opened Encoding
  import opened Bytes
  import opened Grouping
  import opened Bloom
  import opened Reader

  // ------------------------------------------------------------------ on disk

  /** A 64-bit word as a number, and back. */
  function NumberOf(w: bv64): (n: nat)
    ensures n < Pow256(8)
  {
    Widths();
    w as nat
  }

  function WordOf(n: nat): bv64
    requires n < Pow256(8)
  {
    Widths();
    n as bv64
  }

  lemma WordRoundTrip(w: bv64)
    ensures WordOf(NumberOf(w)) == w
  {
  }

  /** Words from `k` on, end to end. */
  function WordBytes(words: seq<bv64>, k: nat): seq<Byte>
    requires k <= |words|
    decreases |words| - k
  {
    if k == |words| then [] else LittleEndian(NumberOf(words[k]), 8) + WordBytes(words, k + 1)
  }

  function BloomFile(hashes: Byte, words: seq<bv64>): seq<Byte> {
    [hashes] + (LittleEndian(|words|, 4) + WordBytes(words, 0))
  }

  /** What a filter is made of. */
  datatype Raw = Raw(hashes: Byte, words: seq<bv64>)

  function ReadWords(b: seq<Byte>, pos: nat, count: nat): Option<seq<bv64>>
    decreases count
  {
    if count == 0 then Some([])
    else if pos + 8 > |b| then None
    else
      match ReadWords(b, pos + 8, count - 1)
      case None => None
      case Some(rest) => Some([WordOf(Number8(b, pos))] + rest)
  }

  function Number8(b: seq<Byte>, pos: nat): (n: nat)
    requires pos + 8 <= |b|
    ensures n < Pow256(8)
  {
    FromLittleEndian(b[pos..pos + 8])
  }

  function ParseBloom(b: seq<Byte>): Option<Raw> {
    if |b| < 5 then None
    else
      match ReadWords(b, 5, NumberAt(b, 1, 4))
      case None => None
      case Some(words) => Some(Raw(b[0], words))
  }

  lemma {:induction false} WordsHeld(words: seq<bv64>, k: nat, b: seq<Byte>, pos: nat)
    requires k <= |words| && Holds(b, pos, WordBytes(words, k))
    ensures ReadWords(b, pos, |words| - k) == Some(words[k..])
    decreases |words| - k
  {
    if k == |words| {
      assert words[k..] == [];
    } else {
      var n := NumberOf(words[k]);
      HoldsParts(b, pos, LittleEndian(n, 8), WordBytes(words, k + 1));
      hide *;
      NumberHeld(b, pos, n, 8);
      WordRoundTrip(words[k]);
      WordsHeld(words, k + 1, b, pos + 8);
      FirstWord(b, pos, words[k], words[k + 1..]);
      assert words[k..] == [words[k]] + words[k + 1..];
    }
  }

  lemma FirstWord(b: seq<Byte>, pos: nat, w: bv64, rest: seq<bv64>)
    requires pos + 8 <= |b| && NumberAt(b, pos, 8) == NumberOf(w) && WordOf(NumberOf(w)) == w
    requires ReadWords(b, pos + 8, |rest|) == Some(rest)
    ensures ReadWords(b, pos, |rest| + 1) == Some([w] + rest)
  {
    assert Number8(b, pos) == NumberOf(w);
    hide FromLittleEndian, NumberOf, WordOf;
  }

  /** What was written is read back. */
  lemma BloomRoundTrip(hashes: Byte, words: seq<bv64>)
    requires |words| < Pow256(4)
    ensures ParseBloom(BloomFile(hashes, words)) == Some(Raw(hashes, words))
  {
    var b := BloomFile(hashes, words);
    assert Holds(b, 0, [hashes] + (LittleEndian(|words|, 4) + WordBytes(words, 0)));
    HoldsParts(b, 0, [hashes], LittleEndian(|words|, 4) + WordBytes(words, 0));
    HoldsParts(b, 1, LittleEndian(|words|, 4), WordBytes(words, 0));
    assert b[0] == hashes;
    hide BloomFile, WordBytes, LittleEndian, Holds, ReadWords, Pow256, NumberAt;
    NumberHeld(b, 1, |words|, 4);
    WordsHeld(words, 0, b, 5);
    assert words[0..] == words;
  }

  method WriteWords(words: seq<bv64>) returns (b: seq<Byte>)
    ensures b == WordBytes(words, 0)
  {
    b := [];
    var k := 0;
    while k < |words|
      invariant 0 <= k <= |words| && WordBytes(words, 0) == b + WordBytes(words, k)
    {
      hide LittleEndian, NumberOf;
      assert b + (LittleEndian(NumberOf(words[k]), 8) + WordBytes(words, k + 1)) ==
             (b + LittleEndian(NumberOf(words[k]), 8)) + WordBytes(words, k + 1);
      b := b + LittleEndian(NumberOf(words[k]), 8);
      k := k + 1;
    }
  }

  // ------------------------------------------------------------ what it answers for

  /** The file holds a filter that every one of the trigrams was inserted into. */
  ghost predicate Filters(b: seq<Byte>, hash: HashPair, trigrams: set<Trigram>) {
    && ParseBloom(b).Some?
    && var raw := ParseBloom(b).value;
    && |raw.words| > 0
    && forall t :: t in trigrams ==> ProbesBefore(hash, |raw.words| * 64, t, raw.hashes) <= BitsOf(raw.words)
  }

  /** The trigrams of a segment that have postings. */
  ghost function Posted(seg: Segment): set<Trigram> {
    set t | t in seg.trigrams && seg.trigrams[t] != []
  }

  /** Every one of the trigrams is found in the filter. */
  ghost predicate FindsAll(filter: BloomFilter, trigrams: set<Trigram>)
    requires filter.Valid()
    reads filter.bits
  {
    forall t :: t in trigrams ==> filter.Signature(t) <= filter.Value()
  }

  /** Inserts one trigram among others. */
  method InsertOne(filter: BloomFilter, ghost seen: set<Trigram>, t: Trigram)
    requires filter.Valid() && FindsAll(filter, seen)
    modifies filter.bits
    ensures FindsAll(filter, seen + {t})
  {
    hide ProbesBefore, BitsOf;
    filter.Insert(t);
  }

  function FirstKeys(pairs: seq<Pair>, n: nat): set<Trigram>
    requires n <= |pairs|
  {
    set x | x in pairs[..n] :: x.0
  }

  lemma OneMoreKey(pairs: seq<Pair>, i: nat)
    requires i < |pairs|
    ensures FirstKeys(pairs, i + 1) == FirstKeys(pairs, i) + {pairs[i].0}
    ensures i > 0 ==> pairs[i - 1].0 in FirstKeys(pairs, i)
  {
    assert pairs[..i + 1] == pairs[..i] + [pairs[i]];
    if i > 0 {
      assert pairs[i - 1] in pairs[..i];
    }
  }

  /** Inserts the trigram of every pair, once for each run of equal ones. */
  method InsertPairs(filter: BloomFilter, pairs: seq<Pair>)
    requires filter.Valid()
    modifies filter.bits
    ensures FindsAll(filter, FirstKeys(pairs, |pairs|))
  {
    var prev: Option<Trigram> := None;
    var i := 0;
    assert FindsAll(filter, FirstKeys(pairs, 0));
    hide FindsAll, FirstKeys;
    while i < |pairs|
      invariant 0 <= i <= |pairs| && prev == if i == 0 then None else Some(pairs[i - 1].0)
      invariant FindsAll(filter, FirstKeys(pairs, i))
    {
      OneMoreKey(pairs, i);
      if prev != Some(pairs[i].0) {
        InsertOne(filter, FirstKeys(pairs, i), pairs[i].0);
        prev := Some(pairs[i].0);
      } else {
        assert FirstKeys(pairs, i + 1) == FirstKeys(pairs, i);
      }
      i := i + 1;
    }
  }

  method InsertAll(filter: BloomFilter, trigrams: seq<Trigram>)
    requires filter.Valid()
    modifies filter.bits
    ensures FindsAll(filter, Elements(trigrams))
  {
    var i := 0;
    assert trigrams[..0] == [] && FindsAll(filter, Elements(trigrams[..0]));
    hide FindsAll;
    while i < |trigrams|
      invariant 0 <= i <= |trigrams| && FindsAll(filter, Elements(trigrams[..i]))
    {
      InsertOne(filter, Elements(trigrams[..i]), trigrams[i]);
      assert trigrams[..i + 1] == trigrams[..i] + [trigrams[i]];
      assert Elements(trigrams[..i + 1]) == Elements(trigrams[..i]) + {trigrams[i]};
      i := i + 1;
    }
    assert trigrams[..i] == trigrams;
  }

  method WriteBloom(filter: BloomFilter, ghost trigrams: set<Trigram>) returns (b: seq<Byte>)
    requires filter.Valid() && filter.bits.Length < Pow256(4)
    requires FindsAll(filter, trigrams)
    ensures Filters(b, filter.hash, trigrams)
  {
    var words := filter.bits[..];
    var body := WriteWords(words);
    b := [filter.numHashes] + (LittleEndian(|words|, 4) + body);
    BloomRoundTrip(filter.numHashes, words);
    hide WordBytes, LittleEndian, ParseBloom, ProbesBefore, BitsOf, Pow256;
  }

  /** The full build's filter, from its sorted pairs. */
  method BloomOfPairs(pairs: seq<Pair>, numWords: nat, hashes: nat, hash: HashPair) returns (b: seq<Byte>)
    requires 0 < numWords < Pow256(4) && hashes < 256
    ensures Filters(b, hash, set x | x in pairs :: x.0)
  {
    hide Pow256, Filters, ProbesBefore;
    var filter := new BloomFilter(numWords, hashes, hash);
    InsertPairs(filter, pairs);
    assert pairs[..|pairs|] == pairs;
    assert FirstKeys(pairs, |pairs|) == set x | x in pairs :: x.0;
    hide FindsAll;
    b := WriteBloom(filter, set x | x in pairs :: x.0);
  }

  /** `build_and_write_bloom`: deltas and compaction insert the keys of their maps. */
  method BuildAndWriteBloom(trigrams: seq<Trigram>, numWords: nat, hashes: nat, hash: HashPair) returns (b: seq<Byte>)
    requires 0 < numWords < Pow256(4) && hashes < 256
    ensures Filters(b, hash, Elements(trigrams))
  {
    hide Pow256, Filters, ProbesBefore;
    var filter := new BloomFilter(numWords, hashes, hash);
    InsertAll(filter, trigrams);
    b := WriteBloom(filter, Elements(trigrams));
  }

  /** What is inserted beyond need does no harm: a compaction's filter has its stop-grams too. */
  lemma FiltersFewer(b: seq<Byte>, hash: HashPair, more: set<Trigram>, fewer: set<Trigram>)
    requires Filters(b, hash, more) && fewer <= more
    ensures Filters(b, hash, fewer)
  {
    hide ParseBloom, ProbesBefore, BitsOf;
  }

  /** Opening a segment: the filter read back answers for it, so no document is skipped wrongly. */
  method ReadBloomFilter(b: seq<Byte>, hash: HashPair, ghost seg: Segment) returns (filter: Option<BloomFilter>)
    ensures filter.None? <==> ParseBloom(b).None? || ParseBloom(b).value.words == []
    ensures filter.Some? && Filters(b, hash, Posted(seg)) ==> Covers(filter.value, seg)
  {
    var raw := ParseBloom(b);
    hide ParseBloom, ProbesBefore, BitsOf;
    if raw.None? || raw.value.words == [] {
      return None;
    }
    var f := new BloomFilter.FromRaw(raw.value.words, raw.value.hashes, hash);
    assert Filters(b, hash, Posted(seg)) ==> forall t :: t in Posted(seg) ==> f.Signature(t) <= f.Value();
    filter := Some(f);
  }
}
