/**
  The bloom filter a segment carries (src/utils/bloom.rs). The hash pair of an
  item is an arbitrary function; sizing from a false-positive rate is left out.
*/
module Bloom {
  import opened Words
  import opened Index

  /** The two 64-bit hashes of an item. */
  type HashPair = Trigram -> (nat, nat)

  const WRAP := 0x1_0000_0000_0000_0000

  /** Bit number of the i-th probe: double hashing in 64 bits. */
  function Probe(hash: HashPair, numBits: nat, item: Trigram, i: nat): (b: nat)
    requires numBits > 0
    ensures b < numBits
  {
    (hash(item).0 + i * hash(item).1 % WRAP) % WRAP % numBits
  }

  /** Every bit number an item is probed at. */
  function ProbesBefore(hash: HashPair, numBits: nat, item: Trigram, n: nat): (r: set<nat>)
    requires numBits > 0
    ensures forall b :: b in r ==> b < numBits
  {
    if n == 0 then {} else ProbesBefore(hash, numBits, item, n - 1) + {Probe(hash, numBits, item, n - 1)}
  }

  lemma {:induction false} ProbeIsIn(hash: HashPair, numBits: nat, item: Trigram, i: nat, n: nat)
    requires numBits > 0 && i < n
    ensures Probe(hash, numBits, item, i) in ProbesBefore(hash, numBits, item, n)
  {
    if i < n - 1 {
      ProbeIsIn(hash, numBits, item, i, n - 1);
    }
  }

  /** Position of bit `b` of an array of words. */
  ghost predicate HasBit(words: seq<bv64>, b: nat)
    requires b < |words| * 64
  {
    b % 64 in BitSet(words[b / 64])
  }

  ghost function BitsOf(words: seq<bv64>): set<nat> {
    set b: nat | b < |words| * 64 && HasBit(words, b)
  }

  lemma UpdateWord(words: seq<bv64>, b: nat)
    requires b < |words| * 64
    ensures BitsOf(words[b / 64 := Join(words[b / 64], Mask(b % 64))]) == BitsOf(words) + {b}
  {
    hide BitSet, Join, Mask;
    SetBit(words[b / 64], b % 64);
    var after := words[b / 64 := Join(words[b / 64], Mask(b % 64))];
    forall c: nat | c < |words| * 64
      ensures HasBit(after, c) <==> HasBit(words, c) || c == b
    {
      if c / 64 == b / 64 && c % 64 == b % 64 {
        assert c == b;
      }
    }
  }

  lemma BitOfWord(words: seq<bv64>, b: nat)
    requires b < |words| * 64
    ensures Bit(words[b / 64], b % 64) <==> b in BitsOf(words)
  {
  }

  lemma JoinWords(a: bv64, b: bv64)
    ensures BitSet(Join(a, b)) == BitSet(a) + BitSet(b)
  {
    hide Join, Mask, Meets;
    forall k: nat | k < 64
      ensures Bit(Join(a, b), k) <==> Bit(a, k) || Bit(b, k)
    {
      JoinMeets(a, b, Mask(k));
    }
  }

  class BloomFilter {
    const bits: array<bv64>
    const numBits: nat
    const numHashes: nat
    const hash: HashPair

    ghost predicate Valid() {
      numBits == bits.Length * 64 && bits.Length > 0 && numHashes < 256
    }

    ghost function Value(): set<nat>
      reads bits
    {
      BitsOf(bits[..])
    }

    /** What an item asks of the filter. */
    ghost function Signature(item: Trigram): set<nat>
      requires Valid()
    {
      ProbesBefore(hash, numBits, item, numHashes)
    }

    constructor (numWords: nat, hashes: nat, h: HashPair)
      requires numWords > 0 && hashes < 256
      ensures Valid() && Value() == {} && fresh(bits)
      ensures bits.Length == numWords && numHashes == hashes && hash == h
    {
      bits := new bv64[numWords](_ => 0);
      numBits := numWords * 64;
      numHashes := hashes;
      hash := h;
      new;
      EmptyWord();
      hide BitSet;
    }

    /** As read back from disk. */
    constructor FromRaw(words: seq<bv64>, hashes: nat, h: HashPair)
      requires |words| > 0 && hashes < 256
      ensures Valid() && Value() == BitsOf(words) && fresh(bits)
      ensures bits.Length == |words| && numHashes == hashes && hash == h
    {
      bits := new bv64[|words|](i requires 0 <= i < |words| => words[i]);
      numBits := |words| * 64;
      numHashes := hashes;
      hash := h;
      new;
      assert bits[..] == words;
    }

    method Insert(item: Trigram)
      requires Valid()
      modifies bits
      ensures Value() == old(Value()) + Signature(item)
    {
      hide BitSet, Join, Mask, BitsOf, Probe;
      var i := 0;
      while i < numHashes
        invariant 0 <= i <= numHashes
        invariant Value() == old(Value()) + ProbesBefore(hash, numBits, item, i)
      {
        var bitIndex := Probe(hash, numBits, item, i);
        var wordIndex := bitIndex / 64;
        var bitOffset := bitIndex % 64;
        ghost var was := bits[..];
        UpdateWord(was, bitIndex);
        bits[wordIndex] := Join(bits[wordIndex], Mask(bitOffset));
        assert bits[..] == was[wordIndex := Join(was[wordIndex], Mask(bitOffset))];
        i := i + 1;
      }
    }

    method MightContain(item: Trigram) returns (r: bool)
      requires Valid()
      ensures r <==> Signature(item) <= Value()
    {
      hide BitSet, Mask, BitsOf, Probe, Bit;
      var i := 0;
      while i < numHashes
        invariant 0 <= i <= numHashes && ProbesBefore(hash, numBits, item, i) <= Value()
      {
        var bitIndex := Probe(hash, numBits, item, i);
        BitOfWord(bits[..], bitIndex);
        if !Bit(bits[bitIndex / 64], bitIndex % 64) {
          ProbeIsIn(hash, numBits, item, i, numHashes);
          return false;
        }
        i := i + 1;
      }
      r := true;
    }

    method MightContainAll(items: seq<Trigram>) returns (r: bool)
      requires Valid()
      ensures r <==> forall k :: 0 <= k < |items| ==> Signature(items[k]) <= Value()
    {
      hide BitsOf, ProbesBefore;
      var k := 0;
      while k < |items|
        invariant 0 <= k <= |items| && forall j :: 0 <= j < k ==> Signature(items[j]) <= Value()
      {
        var might := MightContain(items[k]);
        if !might {
          return false;
        }
        k := k + 1;
      }
      r := true;
    }

    /** Union with a filter of the same size. */
    method Merge(other: BloomFilter)
      requires Valid() && other.Valid() && bits != other.bits && bits.Length == other.bits.Length
      modifies bits
      ensures Value() == old(Value()) + other.Value()
    {
      hide BitSet, Join;
      ghost var was := bits[..];
      var i := 0;
      while i < bits.Length
        invariant 0 <= i <= bits.Length && other.bits[..] == old(other.bits[..])
        invariant forall j :: i <= j < bits.Length ==> bits[j] == was[j]
        invariant forall j :: 0 <= j < i ==> bits[j] == Join(was[j], other.bits[j])
      {
        bits[i] := Join(bits[i], other.bits[i]);
        i := i + 1;
      }
      forall b: nat | b < numBits
        ensures HasBit(bits[..], b) <==> HasBit(was, b) || HasBit(other.bits[..], b)
      {
        JoinWords(was[b / 64], other.bits[b / 64]);
      }
    }
  }

  /** What a filter may be asked to do in its life. */
  datatype Op = Inserted(item: Trigram) | Merged(bits: set<nat>)

  ghost function History(hash: HashPair, numBits: nat, numHashes: nat, start: set<nat>, ops: seq<Op>): set<nat>
    requires numBits > 0
  {
    if ops == [] then start
    else
      History(hash, numBits, numHashes, start, ops[..|ops| - 1]) +
      match ops[|ops| - 1]
      case Inserted(t) => ProbesBefore(hash, numBits, t, numHashes)
      case Merged(b) => b
  }

  /** No false negative, whatever the hash: what was ever inserted, here or in a filter merged in, is found. */
  lemma {:induction false} NeverForgets(hash: HashPair, numBits: nat, numHashes: nat, start: set<nat>, ops: seq<Op>,
      item: Trigram)
    requires numBits > 0
    requires var sig := ProbesBefore(hash, numBits, item, numHashes);
             sig <= start
               || exists k :: 0 <= k < |ops| && (ops[k] == Inserted(item) || (ops[k].Merged? && sig <= ops[k].bits))
    ensures ProbesBefore(hash, numBits, item, numHashes) <= History(hash, numBits, numHashes, start, ops)
    decreases |ops|
  {
    var sig := ProbesBefore(hash, numBits, item, numHashes);
    if ops != [] {
      var n := |ops| - 1;
      if !(sig <= start) {
        var k :| 0 <= k < |ops| && (ops[k] == Inserted(item) || (ops[k].Merged? && sig <= ops[k].bits));
        if k < n {
          assert ops[..n][k] == ops[k];
          NeverForgets(hash, numBits, numHashes, start, ops[..n], item);
        }
      } else {
        NeverForgets(hash, numBits, numHashes, start, ops[..n], item);
      }
    }
  }
}
