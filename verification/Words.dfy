/** Sets of small numbers kept as the bits of 64-bit words, as the trigram and bloom bitsets do. */
module Words {
  import opened Prelude

  /** `1u64 << k`. */
  function Mask(k: nat): bv64
    requires k < 64
  {
    if k == 0 then 1 else Mask(k - 1) << 1
  }

  /** The words share a set bit. */
  predicate Meets(w: bv64, m: bv64) {
    w & m != 0
  }

  /** Exactly one bit is set. */
  predicate Single(m: bv64) {
    m != 0 && m & (m - 1) == 0
  }

  /** No bit of `w` lies below the single bit of `m`. */
  predicate ClearBelow(w: bv64, m: bv64) {
    w & (m - 1) == 0
  }

  predicate Below(a: bv64, m: bv64) {
    a & (m - 1) == a
  }

  function Drop(w: bv64): bv64 {
    w & (w - 1)
  }

  function Join(w: bv64, m: bv64): bv64 {
    w | m
  }

  predicate Bit(w: bv64, k: nat)
    requires k < 64
  {
    Meets(w, Mask(k))
  }

  function BitSet(w: bv64): set<nat> {
    set k: nat | k < 64 && Bit(w, k)
  }

  // ------------------------------------------------------------ masks, as bits

  lemma MaskNext(k: nat)
    requires k + 1 < 64
    ensures Mask(k + 1) == Mask(k) << 1
  {
  }

  lemma Up7(k: nat)
    requires k + 7 < 64
    ensures Mask(k + 7) == Mask(k) << 7
  {
    hide Mask;
    MaskNext(k); MaskNext(k + 1); MaskNext(k + 2); MaskNext(k + 3); MaskNext(k + 4); MaskNext(k + 5); MaskNext(k + 6);
  }

  /** The highest mask: no bit has been shifted out. */
  lemma TopMask()
    ensures Mask(63) == 0x8000_0000_0000_0000
  {
    assert Mask(0) == 1;
    Up7(0); Up7(7); Up7(14); Up7(21); Up7(28); Up7(35); Up7(42); Up7(49); Up7(56);
    hide Mask;
  }

  lemma {:induction false} MaskNonZero(k: nat)
    requires k < 64
    ensures Mask(k) != 0
    decreases 64 - k
  {
    TopMask();
    if k < 63 {
      MaskNonZero(k + 1);
      assert Mask(k + 1) == Mask(k) << 1;
    }
  }

  lemma Doubling(m: bv64)
    requires Single(m) && m << 1 != 0
    ensures Single(m << 1) && Below(m, m << 1)
  {
  }

  lemma {:induction false} MaskSingle(k: nat)
    requires k < 64
    ensures Single(Mask(k))
  {
    if k > 0 {
      MaskSingle(k - 1);
      MaskNonZero(k);
      assert Mask(k) == Mask(k - 1) << 1;
      hide Single, Mask;
      Doubling(Mask(k - 1));
    }
  }

  lemma BelowDouble(a: bv64, m: bv64)
    requires Single(m) && m << 1 != 0 && Below(a, m)
    ensures Below(a, m << 1)
  {
  }

  /** Lower masks lie below a higher one. */
  lemma {:induction false} MaskBelow(j: nat, k: nat)
    requires j < k < 64
    ensures Below(Mask(j), Mask(k))
    decreases k
  {
    hide Single, Below;
    MaskSingle(k - 1);
    MaskNonZero(k);
    assert Mask(k) == Mask(k - 1) << 1;
    hide Mask;
    if j == k - 1 {
      Doubling(Mask(j));
    } else {
      MaskBelow(j, k - 1);
      BelowDouble(Mask(j), Mask(k - 1));
    }
  }

  lemma BelowMisses(a: bv64, b: bv64)
    requires Below(a, b) && Single(b)
    ensures !Meets(a, b) && !Meets(b, a)
  {
  }

  lemma MasksApart(j: nat, k: nat)
    requires j < 64 && k < 64
    ensures Meets(Mask(j), Mask(k)) <==> j == k
  {
    hide Single, Mask, Below, Meets;
    MaskSingle(j);
    MaskSingle(k);
    if j < k {
      MaskBelow(j, k);
      BelowMisses(Mask(j), Mask(k));
    } else if k < j {
      MaskBelow(k, j);
      BelowMisses(Mask(k), Mask(j));
    } else {
      SelfMeets(Mask(j));
    }
  }

  lemma SelfMeets(m: bv64)
    requires Single(m)
    ensures Meets(m, m)
  {
  }

  // -------------------------------------------------------------- setting a bit

  lemma JoinKeeps(w: bv64, m: bv64, n: bv64)
    requires Meets(w, n)
    ensures Meets(Join(w, m), n)
  {
  }

  lemma JoinAdds(w: bv64, m: bv64, n: bv64)
    requires Meets(m, n)
    ensures Meets(Join(w, m), n)
  {
  }

  lemma JoinMisses(w: bv64, m: bv64, n: bv64)
    requires !Meets(w, n) && !Meets(m, n)
    ensures !Meets(Join(w, m), n)
  {
  }

  lemma JoinMeets(w: bv64, m: bv64, n: bv64)
    ensures Meets(Join(w, m), n) <==> Meets(w, n) || Meets(m, n)
  {
    hide *;
    if Meets(w, n) {
      JoinKeeps(w, m, n);
    } else if Meets(m, n) {
      JoinAdds(w, m, n);
    } else {
      JoinMisses(w, m, n);
    }
  }

  /** `w |= 1 << t` adds `t` to the set and nothing else. */
  lemma SetBit(w: bv64, t: nat)
    requires t < 64
    ensures BitSet(Join(w, Mask(t))) == BitSet(w) + {t}
  {
    hide Mask, Meets, Join;
    forall k: nat | k < 64
      ensures Bit(Join(w, Mask(t)), k) <==> Bit(w, k) || k == t
    {
      MasksApart(t, k);
      JoinMeets(w, Mask(t), Mask(k));
    }
  }

  lemma ZeroMeets(m: bv64)
    ensures !Meets(0, m)
  {
  }

  lemma EmptyWord()
    ensures BitSet(0) == {}
  {
    hide Mask, Meets;
    forall k: nat | k < 64
      ensures !Bit(0, k)
    {
      ZeroMeets(Mask(k));
    }
  }

  // ------------------------------------------------------------ draining a word

  lemma NotYet(w: bv64, m: bv64)
    requires ClearBelow(w, m) && !Meets(w, m) && Single(m)
    ensures ClearBelow(w, m << 1)
    ensures m == 0x8000_0000_0000_0000 ==> w == 0
  {
  }

  lemma NextMask(w: bv64, k: nat)
    requires k < 64 && ClearBelow(w, Mask(k)) && !Bit(w, k) && w != 0
    ensures k < 63 && ClearBelow(w, Mask(k + 1))
  {
    MaskSingle(k);
    hide Single, Meets, ClearBelow;
    NotYet(w, Mask(k));
    TopMask();
    assert k < 63 ==> Mask(k + 1) == Mask(k) << 1;
  }

  /** Position of the lowest set bit, looked for from `k` on. */
  function LowestFrom(w: bv64, k: nat): (t: nat)
    requires k < 64 && w != 0 && ClearBelow(w, Mask(k))
    ensures t < 64 && Bit(w, t) && ClearBelow(w, Mask(t))
    decreases 64 - k
  {
    hide Mask, Meets, ClearBelow;
    if Bit(w, k) then k
    else
      NextMask(w, k);
      LowestFrom(w, k + 1)
  }

  lemma NothingBelowOne(w: bv64)
    ensures ClearBelow(w, Mask(0))
  {
  }

  function TrailingZeros(w: bv64): (t: nat)
    requires w != 0
    ensures t < 64 && Bit(w, t) && ClearBelow(w, Mask(t))
  {
    hide Mask, Meets, ClearBelow;
    NothingBelowOne(w);
    LowestFrom(w, 0)
  }

  lemma MinusOne(w: bv64, m: bv64)
    requires m != 0 && m & (m - 1) == 0 && w & m != 0 && w & (m - 1) == 0
    ensures w & (w - 1) == w & !m
  {
    hide *;
  }

  lemma DropIs(w: bv64, m: bv64)
    requires Single(m) && Meets(w, m) && ClearBelow(w, m)
    ensures Drop(w) == w & !m
  {
    hide Mask, Bit, BitSet;
    MinusOne(w, m);
  }

  lemma DropsLowest(w: bv64, m: bv64, n: bv64)
    requires Single(m) && Meets(w, m) && ClearBelow(w, m)
    ensures !Meets(Drop(w), m)
    ensures !Meets(n, m) ==> (Meets(Drop(w), n) <==> Meets(w, n))
  {
    DropIs(w, m);
    hide Drop, Single, ClearBelow;
  }

  /** `w & (w - 1)` clears the lowest bit and no other. */
  lemma DrainsOne(w: bv64)
    requires w != 0
    ensures BitSet(Drop(w)) == BitSet(w) - {TrailingZeros(w)}
  {
    hide Mask, Meets, ClearBelow, Drop, Single, LowestFrom;
    var t := TrailingZeros(w);
    MaskSingle(t);
    forall k: nat | k < 64
      ensures Bit(Drop(w), k) <==> Bit(w, k) && k != t
    {
      MasksApart(k, t);
      DropsLowest(w, Mask(t), Mask(k));
    }
  }

  /** The numbers a word stands for, `base` added to each. */
  method Drain(word: bv64, base: nat) returns (r: seq<nat>)
    ensures Distinct(r)
    ensures forall t :: t in r <==> base <= t < base + 64 && t - base in BitSet(word)
  {
    r := [];
    var w := word;
    hide BitSet, Bit, Mask, Drop, Meets, ClearBelow, TrailingZeros;
    while w != 0
      invariant Distinct(r) && BitSet(w) <= BitSet(word)
      invariant forall t :: t in r <==> base <= t < base + 64 && t - base in BitSet(word) - BitSet(w)
      decreases |BitSet(w)|
    {
      DrainsOne(w);
      var t := TrailingZeros(w);
      assert t in BitSet(w) by { InBitSet(w, t); }
      assert base + t !in r;
      r := r + [base + t];
      ghost var was := w;
      w := Drop(w);
      assert BitSet(w) < BitSet(was);
      Shrinks(BitSet(w), BitSet(was));
    }
    EmptyWord();
  }

  lemma InBitSet(w: bv64, t: nat)
    requires t < 64 && Bit(w, t)
    ensures t in BitSet(w)
  {
  }

  lemma Shrinks<T>(a: set<T>, b: set<T>)
    requires a < b
    ensures |a| < |b|
  {
    assert b == a + (b - a);
  }
}
