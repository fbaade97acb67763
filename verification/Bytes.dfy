/** Little-endian numbers of a fixed width, and numbers read back from a buffer. */
module Bytes {
  import opened Prelude
  import opened Encoding

  function Pow256(width: nat): (p: nat)
    ensures p > 0
  {
    if width == 0 then 1 else 256 * Pow256(width - 1)
  }

  /** `to_le_bytes` after a cast: what does not fit is cut off. */
  function LittleEndian(n: nat, width: nat): (b: seq<Byte>)
    ensures |b| == width
  {
    if width == 0 then [] else [n % 256] + LittleEndian(n / 256, width - 1)
  }

  /** The byte of weight 256 to the i-th stands at place i. */
  lemma {:induction false} LittleEndianBytes(n: nat, width: nat, i: nat)
    requires i < width
    ensures LittleEndian(n, width)[i] == n / Pow256(i) % 256
    decreases i
  {
    if i > 0 {
      LittleEndianBytes(n / 256, width - 1, i - 1);
      DivTwice(n, Pow256(i - 1));
    }
  }

  lemma DivTwice(n: nat, p: nat)
    requires p > 0
    ensures n / 256 / p == n / (256 * p)
  {
    var q, r := n / 256 / p, n / 256 % p;
    assert n / 256 == q * p + r;
    assert n == 256 * (q * p + r) + n % 256;
    Distributes(256, q, p, r);
    Quotient(n, 256 * p, q, 256 * r + n % 256);
  }

  /** `from_le_bytes`. */
  function FromLittleEndian(b: seq<Byte>): (n: nat)
    ensures n < Pow256(|b|)
  {
    if b == [] then 0 else b[0] + 256 * FromLittleEndian(b[1..])
  }

  lemma {:induction false} LittleEndianRoundTrip(n: nat, width: nat)
    requires n < Pow256(width)
    ensures FromLittleEndian(LittleEndian(n, width)) == n
  {
    if width > 0 {
      LittleEndianRoundTrip(n / 256, width - 1);
      var b := LittleEndian(n, width);
      assert b[1..] == LittleEndian(n / 256, width - 1);
    }
  }

  lemma Widths()
    ensures Pow256(2) == 0x1_0000 && Pow256(4) == 0x1_0000_0000 && Pow256(8) == 0x1_0000_0000_0000_0000
  {
    assert Pow256(1) == 256 && Pow256(2) == 0x1_0000 && Pow256(3) == 0x100_0000;
    assert Pow256(5) == 256 * Pow256(4) && Pow256(6) == 256 * Pow256(5) && Pow256(7) == 256 * Pow256(6);
  }

  /** The number at `pos`. */
  function NumberAt(b: seq<Byte>, pos: nat, width: nat): nat
    requires pos + width <= |b|
  {
    FromLittleEndian(b[pos..pos + width])
  }

  lemma NumberHeld(b: seq<Byte>, pos: nat, n: nat, width: nat)
    requires Holds(b, pos, LittleEndian(n, width)) && n < Pow256(width)
    ensures pos + width <= |b| && NumberAt(b, pos, width) == n
  {
    LittleEndianRoundTrip(n, width);
  }
}
