/** Machine integers, bytes and the few general notions every component shares. */
module Prelude {

  type Byte = b: int | 0 <= b < 256
  type U32 = n: int | 0 <= n < 0x1_0000_0000

  const U32_MAX: U32 := 0xFFFF_FFFF

  datatype Option<+T> = None | Some(value: T)

  /** Addition on `u32` that sticks at the maximum instead of wrapping. */
  function SaturatingAdd(a: U32, b: U32): U32 {
    if a + b > U32_MAX then U32_MAX else a + b
  }

  /** What is left of a number kept in 32 bits. */
  function Truncate(n: nat): U32 {
    n % 0x1_0000_0000
  }

  /** The elements of a sequence, forgetting order and repetition. */
  function Elements<T(==)>(s: seq<T>): set<T> {
    set x | x in s
  }

  ghost predicate Ascending(s: seq<int>) {
    forall i, j :: 0 <= i < j < |s| ==> s[i] < s[j]
  }

  ghost predicate Distinct<T>(s: seq<T>) {
    forall i, j :: 0 <= i < j < |s| ==> s[i] != s[j]
  }

  lemma ConsMove<T>(s: seq<T>, x: T, t: seq<T>)
    ensures (s + [x]) + t == s + ([x] + t)
  {
  }

  function InsertSorted(s: seq<nat>, x: nat): (r: seq<nat>)
    requires Ascending(s)
    ensures Ascending(r)
    ensures forall y :: y in r <==> y in s || y == x
  {
    if s == [] || s[|s| - 1] < x then s + [x]
    else if s[|s| - 1] == x then s
    else
      var init, last := s[..|s| - 1], s[|s| - 1];
      assert s == init + [last];
      var r := InsertSorted(init, x);
      assert forall y :: y in init ==> y < last;
      assert forall i :: 0 <= i < |r| ==> r[i] in r;
      r + [last]
  }

  /** `sort_unstable` then `dedup`. */
  function SortDedup(s: seq<nat>): (r: seq<nat>)
    ensures Ascending(r)
    ensures forall y :: y in r <==> y in s
  {
    if s == [] then []
    else
      assert s == s[..|s| - 1] + [s[|s| - 1]];
      InsertSorted(SortDedup(s[..|s| - 1]), s[|s| - 1])
  }

  // ---------------------------------------------------------------- arithmetic

  lemma Grows(a: nat, b: nat, c: nat)
    requires a <= b
    ensures a * c <= b * c
  {
  }

  lemma Distributes(c: nat, q: nat, p: nat, r: nat)
    ensures c * (q * p + r) == q * (c * p) + c * r
  {
  }

  lemma Quotient(v: nat, d: nat, q: nat, r: nat)
    requires d > 0 && v == q * d + r && r < d
    ensures v / d == q
  {
    var k := v / d;
    assert v == k * d + v % d;
    if k < q {
      Grows(k + 1, q, d);
    } else {
      Grows(q + 1, k + 1, d);
      if k > q {
        Grows(q + 1, k, d);
      }
    }
  }
}
