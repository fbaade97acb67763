/** Trigram extraction (src/utils/trigram.rs): four strategies by file size, one set of windows. */
module Trigrams {
  import opened Prelude
  import opened Text
  import opened Words
  import opened Index

  const TRIGRAMS := 0x100_0000

  /** `bytes_to_trigram`. */
  function TrigramOf(b0: Byte, b1: Byte, b2: Byte): (t: Trigram)
    ensures t < TRIGRAMS
  {
    b0 * 0x1_0000 + b1 * 0x100 + b2
  }

  function TrigramAt(content: seq<Byte>, i: nat): Trigram
    requires i + 3 <= |content|
  {
    TrigramOf(content[i], content[i + 1], content[i + 2])
  }

  /** A trigram tells its three bytes. */
  lemma SameTrigramIff(a: seq<Byte>, i: nat, b: seq<Byte>, j: nat)
    requires i + 3 <= |a| && j + 3 <= |b|
    ensures TrigramAt(a, i) == TrigramAt(b, j) <==> a[i..i + 3] == b[j..j + 3]
  {
    if a[i..i + 3] == b[j..j + 3] {
      var x, y := a[i..i + 3], b[j..j + 3];
      assert a[i] == x[0] && a[i + 1] == x[1] && a[i + 2] == x[2];
      assert b[j] == y[0] && b[j + 1] == y[1] && b[j + 2] == y[2];
    }
  }

  /** The trigrams of the windows starting before `n`. */
  function WindowsBefore(content: seq<Byte>, n: nat): set<Trigram>
    requires n == 0 || n + 2 <= |content|
  {
    if n == 0 then {} else WindowsBefore(content, n - 1) + {TrigramAt(content, n - 1)}
  }

  function WindowCount(content: seq<Byte>): nat {
    if |content| < 3 then 0 else |content| - 2
  }

  /** The trigrams of a text. */
  function Windows(content: seq<Byte>): set<Trigram> {
    WindowsBefore(content, WindowCount(content))
  }

  lemma {:induction false} InWindows(content: seq<Byte>, n: nat, t: Trigram)
    requires n == 0 || n + 2 <= |content|
    ensures t in WindowsBefore(content, n) <==> exists i :: 0 <= i < n && TrigramAt(content, i) == t
  {
    if n > 0 {
      InWindows(content, n - 1, t);
    }
  }

  /** A text has every trigram of what it contains: the reason narrowing loses nothing. */
  lemma NeedleTrigrams(hay: seq<Byte>, needle: seq<Byte>)
    requires Contains(hay, needle)
    ensures Windows(needle) <= Windows(hay)
  {
    var o :| 0 <= o <= |hay| && At(hay, needle, o);
    forall t | t in Windows(needle)
      ensures t in Windows(hay)
    {
      InWindows(needle, WindowCount(needle), t);
      var i :| 0 <= i < WindowCount(needle) && TrigramAt(needle, i) == t;
      assert forall k :: 0 <= k < |needle| ==> needle[k] == hay[o..o + |needle|][k] == hay[o + k];
      assert TrigramAt(hay, o + i) == t;
      InWindows(hay, WindowCount(hay), t);
    }
  }

  // ------------------------------------------------------------ query trigrams

  function WindowList(content: seq<Byte>, n: nat): (r: seq<Trigram>)
    requires n == 0 || n + 2 <= |content|
    ensures Elements(r) == WindowsBefore(content, n)
  {
    if n == 0 then [] else WindowList(content, n - 1) + [TrigramAt(content, n - 1)]
  }

  /** `query_trigrams`: windows, sorted, without repetition. */
  function QueryTrigrams(query: seq<Byte>): (r: seq<Trigram>)
    ensures Ascending(r) && Elements(r) == Windows(query)
    ensures r == [] <==> |query| < 3
  {
    if |query| < 3 then []
    else
      var r := SortDedup(WindowList(query, |query| - 2));
      assert TrigramAt(query, |query| - 3) in WindowList(query, |query| - 2);
      r
  }

  // ------------------------------------------------------------------- bitsets

  class FullTrigramBitset {
    const bits: array<bv64>

    ghost predicate Valid() {
      bits.Length == 262144
    }

    ghost predicate Has(t: Trigram)
      requires Valid() && t < TRIGRAMS
      reads bits
    {
      t % 64 in BitSet(bits[t / 64])
    }

    ghost function Value(): set<Trigram>
      requires Valid()
      reads bits
    {
      set t: Trigram | t < TRIGRAMS && Has(t)
    }

    constructor ()
      ensures Valid() && Value() == {} && fresh(bits)
    {
      bits := new bv64[262144](_ => 0);
      new;
      EmptyWord();
      hide BitSet;
    }

    method Set(t: Trigram)
      requires Valid() && t < TRIGRAMS
      modifies bits
      ensures Value() == old(Value()) + {t}
    {
      hide BitSet, Join, Mask;
      SetBit(bits[t / 64], t % 64);
      bits[t / 64] := Join(bits[t / 64], Mask(t % 64));
      forall s: Trigram | s < TRIGRAMS
        ensures Has(s) <==> old(Has(s)) || s == t
      {
        if s / 64 == t / 64 && s % 64 == t % 64 {
          assert s == t;
        }
      }
    }

    method Collect() returns (r: seq<Trigram>)
      requires Valid()
      ensures Distinct(r) && Elements(r) == Value()
    {
      hide BitSet;
      r := [];
      var idx := 0;
      while idx < bits.Length
        invariant 0 <= idx <= bits.Length && Distinct(r)
        invariant forall t: Trigram :: t in r <==> t < idx * 64 && t < TRIGRAMS && Has(t)
      {
        var drained := Drain(bits[idx], idx * 64);
        forall t: Trigram
          ensures t in drained <==> idx * 64 <= t < idx * 64 + 64 && t < TRIGRAMS && Has(t)
        {
          if idx * 64 <= t < idx * 64 + 64 {
            assert t / 64 == idx && t % 64 == t - idx * 64;
          }
        }
        DistinctConcat(r, drained);
        r := r + drained;
        idx := idx + 1;
      }
    }
  }

  lemma DistinctConcat<T>(a: seq<T>, b: seq<T>)
    requires Distinct(a) && Distinct(b) && forall x :: x in a ==> x !in b
    ensures Distinct(a + b)
  {
    forall i, j | 0 <= i < j < |a + b|
      ensures (a + b)[i] != (a + b)[j]
    {
      if i < |a| <= j {
        assert a[i] in a && b[j - |a|] in b;
      }
    }
  }

  class SparseTrigramBitset {
    var blocks: map<nat, bv64>

    ghost predicate Has(t: Trigram)
      reads this
    {
      t / 64 in blocks && t % 64 in BitSet(blocks[t / 64])
    }

    constructor ()
      ensures blocks == map[]
    {
      blocks := map[];
    }

    method TestAndSet(t: Trigram) returns (wasSet: bool)
      modifies this
      ensures wasSet == old(Has(t))
      ensures forall s: Trigram :: Has(s) <==> old(Has(s)) || s == t
    {
      var k := t / 64;
      var word: bv64 := if k in blocks then blocks[k] else 0;
      EmptyWord();
      SetBit(word, t % 64);
      wasSet := Bit(word, t % 64);
      assert wasSet <==> t % 64 in BitSet(word);
      hide BitSet, Join, Mask, Bit;
      blocks := blocks[k := Join(word, Mask(t % 64))];
      forall s: Trigram
        ensures Has(s) <==> old(Has(s)) || s == t
      {
        if s / 64 == k && s % 64 == t % 64 {
          assert s == t;
        }
      }
    }

    /** Blocks come out of the map in any order. */
    method Collect() returns (r: seq<Trigram>)
      ensures Distinct(r) && forall t: Trigram :: t in r <==> Has(t)
    {
      hide BitSet;
      r := [];
      var todo := blocks.Keys;
      while todo != {}
        invariant todo <= blocks.Keys && Distinct(r)
        invariant forall t: Trigram :: t in r <==> t / 64 !in todo && Has(t)
        decreases |todo|
      {
        var k :| k in todo;
        var drained := Drain(blocks[k], k * 64);
        forall t: Trigram
          ensures t in drained <==> t / 64 == k && Has(t)
        {
          if t / 64 == k {
            assert t % 64 == t - k * 64;
          }
        }
        DistinctConcat(r, drained);
        r := r + drained;
        todo := todo - {k};
      }
    }
  }

  // ---------------------------------------------------------------- extraction

  lemma ElementsSnoc<T>(s: seq<T>, x: T)
    ensures Elements(s + [x]) == Elements(s) + {x}
  {
  }

  lemma NoElements<T>()
    ensures Elements<T>([]) == {}
  {
  }

  /** A hash set comes out in any order. */
  method ListOf(s: set<Trigram>) returns (r: seq<Trigram>)
    ensures Distinct(r) && Elements(r) == s
  {
    r := [];
    var todo := s;
    while todo != {}
      invariant todo <= s && Distinct(r) && Elements(r) == s - todo
      decreases |todo|
    {
      var t :| t in todo;
      assert t !in Elements(r);
      todo := todo - {t};
      ElementsSnoc(r, t);
      r := r + [t];
    }
  }

  method ExtractBySorting(content: seq<Byte>) returns (r: seq<Trigram>)
    requires |content| >= 3
    ensures Distinct(r) && Elements(r) == Windows(content)
  {
    hide TrigramOf, Elements;
    var trigrams: seq<Trigram> := [];
    var i := 0;
    assert Elements(trigrams) == {} by { NoElements<Trigram>(); }
    while i < |content| - 2
      invariant 0 <= i <= |content| - 2 && Elements(trigrams) == WindowsBefore(content, i)
    {
      ElementsSnoc(trigrams, TrigramAt(content, i));
      trigrams := trigrams + [TrigramOf(content[i], content[i + 1], content[i + 2])];
      i := i + 1;
    }
    r := SortDedup(trigrams);
    SortedElements(trigrams);
  }

  lemma SortedElements(s: seq<nat>)
    ensures Elements(SortDedup(s)) == Elements(s) && Distinct(SortDedup(s))
  {
    var r := SortDedup(s);
    forall i, j | 0 <= i < j < |r|
      ensures r[i] != r[j]
    {
      assert r[i] < r[j];
    }
  }

  method ExtractByHashing(content: seq<Byte>) returns (r: seq<Trigram>)
    requires |content| >= 3
    ensures Distinct(r) && Elements(r) == Windows(content)
  {
    hide TrigramOf, Elements;
    var seen: set<Trigram> := {};
    var i := 0;
    while i < |content| - 2
      invariant 0 <= i <= |content| - 2 && seen == WindowsBefore(content, i)
    {
      seen := seen + {TrigramOf(content[i], content[i + 1], content[i + 2])};
      i := i + 1;
    }
    r := ListOf(seen);
  }

  method ExtractSparse(content: seq<Byte>) returns (r: seq<Trigram>)
    requires |content| >= 3
    ensures Distinct(r) && Elements(r) == Windows(content)
  {
    var bitset := new SparseTrigramBitset();
    var i := 0;
    while i < |content| - 2
      invariant 0 <= i <= |content| - 2
      invariant forall t: Trigram :: bitset.Has(t) <==> t in WindowsBefore(content, i)
    {
      var known := bitset.TestAndSet(TrigramOf(content[i], content[i + 1], content[i + 2]));
      i := i + 1;
    }
    r := bitset.Collect();
  }

  method ExtractFull(content: seq<Byte>) returns (r: seq<Trigram>)
    requires |content| >= 3
    ensures Distinct(r) && Elements(r) == Windows(content)
  {
    hide TrigramOf, Elements, FullTrigramBitset.Value;
    var bitset := new FullTrigramBitset();
    var i := 0;
    while i < |content| - 2
      invariant 0 <= i <= |content| - 2 && fresh(bitset.bits) && bitset.Valid()
      invariant bitset.Value() == WindowsBefore(content, i)
    {
      bitset.Set(TrigramOf(content[i], content[i + 1], content[i + 2]));
      i := i + 1;
    }
    r := bitset.Collect();
  }

  /** Whichever strategy the size selects, the result is the set of windows, each once. */
  method ExtractTrigrams(content: seq<Byte>) returns (r: seq<Trigram>)
    ensures Distinct(r) && Elements(r) == Windows(content)
  {
    if |content| < 3 {
      return [];
    }
    if |content| < 4096 {
      r := ExtractBySorting(content);
    } else if |content| < 100_000 {
      r := ExtractByHashing(content);
    } else if |content| < 1_000_000 {
      r := ExtractSparse(content);
    } else {
      r := ExtractFull(content);
    }
  }
}
