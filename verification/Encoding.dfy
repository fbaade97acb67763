/**
  Variable-length integers, delta-coded posting lists and position postings
  (src/utils/encoding.rs). The varint is unsigned LEB128 (section 7.6 of DWARF
  Version 5) restricted to five bytes.

  The shift-and-or of the source is written as multiplication by a power of two
  and addition: the or'ed bits never overlap, and the fifth byte loses the bits
  that a 32-bit shift pushes out. Slices `&buf[pos..]` are a buffer and a
  position.
*/
module Encoding {
  import opened Prelude

  // ---------------------------------------------------------------- varints

  /** A value read from a buffer and the position after it. */
  datatype Read = Read(value: U32, next: nat)

  function Pow2(n: nat): (p: nat)
    ensures p > 0
  {
    if n == 0 then 1 else 2 * Pow2(n - 1)
  }

  function EncodeVarint(v: U32): (enc: seq<Byte>)
    ensures |enc| > 0
  {
    if v < 128 then [v] else [v % 128 + 128] + EncodeVarint(v / 128)
  }

  method WriteVarint(value: U32, buf: seq<Byte>) returns (out: seq<Byte>)
    ensures out == buf + EncodeVarint(value)
  {
    var v := value;
    out := buf;
    while v >= 128
      invariant out + EncodeVarint(v) == buf + EncodeVarint(value)
      decreases v
    {
      out := out + [v % 128 + 128];
      v := v / 128;
    }
    out := out + [v];
  }

  /** Position of the first byte from `pos` on without a continuation bit, or the length. */
  function VarintEnd(b: seq<Byte>, pos: nat): (k: nat)
    requires pos <= |b|
    ensures pos <= k <= |b|
    decreases |b| - pos
  {
    if pos == |b| || b[pos] < 128 then pos else VarintEnd(b, pos + 1)
  }

  /** The number the 7-bit groups of `b[lo..hi]` spell, least significant group first. */
  function Groups(b: seq<Byte>, lo: nat, hi: nat): nat
    requires lo <= hi <= |b|
    decreases hi - lo
  {
    if lo == hi then 0 else b[lo] % 128 + 128 * Groups(b, lo + 1, hi)
  }

  /** What `decode_varint` returns. */
  function DecodeVarint(b: seq<Byte>, pos: nat): (r: Option<Read>)
    requires pos <= |b|
    ensures r.Some? ==> pos < r.value.next <= |b|
  {
    var k := VarintEnd(b, pos);
    if k < |b| && k < pos + 5 then Some(Read(Truncate(Groups(b, pos, k + 1)), k + 1)) else None
  }

  lemma {:induction false} GroupsSnoc(b: seq<Byte>, lo: nat, hi: nat)
    requires lo <= hi < |b|
    ensures Groups(b, lo, hi + 1) == Groups(b, lo, hi) + Pow2(7 * (hi - lo)) * (b[hi] % 128)
    decreases hi - lo
  {
    if lo < hi {
      GroupsSnoc(b, lo + 1, hi);
      PowStep(7 * (hi - lo - 1));
      var p, d := Pow2(7 * (hi - lo - 1)), b[hi] % 128;
      assert 128 * (p * d) == (128 * p) * d;
    }
  }

  lemma PowStep(n: nat)
    ensures Pow2(n + 7) == 128 * Pow2(n)
  {
    assert Pow2(n + 7) == 2 * Pow2(n + 6) == 4 * Pow2(n + 5) == 8 * Pow2(n + 4);
    assert Pow2(n + 4) == 2 * Pow2(n + 3) == 4 * Pow2(n + 2) == 8 * Pow2(n + 1);
  }

  lemma DivTwice(v: nat, i: nat)
    ensures v / 128 / Pow2(7 * i) == v / Pow2(7 * i + 7)
  {
    PowStep(7 * i);
    var p := Pow2(7 * i);
    var q := v / 128 / p;
    var r := v / 128 % p;
    assert v / 128 == q * p + r;
    var low := v % 128;
    assert v == 128 * (q * p + r) + low;
    assert 128 * (q * p + r) == q * (128 * p) + 128 * r by { Distributes(128, q, p, r); }
    Quotient(v, 128 * p, q, 128 * r + low);
  }

  /**
    The bytes of a varint: seven bits each, low ones first, the eighth bit set on
    all but the last, and no byte more than needed.
  */
  lemma {:induction false} VarintBytes(v: U32, i: nat)
    requires i < |EncodeVarint(v)|
    ensures EncodeVarint(v)[i] % 128 == v / Pow2(7 * i) % 128
    ensures EncodeVarint(v)[i] >= 128 <==> i < |EncodeVarint(v)| - 1
    ensures i > 0 && i == |EncodeVarint(v)| - 1 ==> EncodeVarint(v)[i] > 0
    decreases i
  {
    if i > 0 {
      VarintBytes(v / 128, i - 1);
      DivTwice(v, i - 1);
      assert EncodeVarint(v)[i] == EncodeVarint(v / 128)[i - 1];
      hide Pow2;
      if i == 1 && |EncodeVarint(v / 128)| == 1 {
        assert EncodeVarint(v / 128)[0] == v / 128;
      }
    } else {
      assert Pow2(0) == 1;
    }
  }

  lemma FivePowers()
    ensures Pow2(7) == 128 && Pow2(14) == 0x4000 && Pow2(21) == 0x20_0000
    ensures Pow2(28) == 0x1000_0000 && Pow2(35) == 0x8_0000_0000
  {
    PowStep(0);
    PowStep(7);
    PowStep(14);
    PowStep(21);
    PowStep(28);
  }

  lemma {:induction false} VarintEndIs(b: seq<Byte>, pos: nat, k: nat)
    requires pos <= k <= |b|
    requires forall j :: pos <= j < k ==> b[j] >= 128
    ensures VarintEnd(b, pos) >= k
    ensures k == |b| || b[k] < 128 ==> VarintEnd(b, pos) == k
    decreases k - pos
  {
    if pos < k {
      VarintEndIs(b, pos + 1, k);
    }
  }

  /** `result | (byte & 0x7F) << shift` in 32 bits. */
  function OrShifted(result: U32, byte: Byte, shift: nat): U32 {
    Truncate(result + Pow2(shift) * (byte % 128))
  }

  /** One turn of the slow loop: the byte lands above all earlier groups. */
  lemma GroupStep(b: seq<Byte>, pos: nat, i: nat)
    requires 1 <= i < 5 && pos + i < |b|
    requires Groups(b, pos, pos + i) < Pow2(7 * i) < 0x1_0000_0000
    ensures OrShifted(Groups(b, pos, pos + i), b[pos + i], 7 * i) == Truncate(Groups(b, pos, pos + i + 1))
    ensures i < 4 ==>
            Truncate(Groups(b, pos, pos + i + 1)) == Groups(b, pos, pos + i + 1) < Pow2(7 * i + 7) < 0x1_0000_0000
  {
    FivePowers();
    GroupsSnoc(b, pos, pos + i);
    PowStep(7 * i);
    GroupBound(Pow2(7 * i), Groups(b, pos, pos + i), b[pos + i] % 128);
  }

  lemma GroupBound(p: nat, g: nat, d: nat)
    requires g < p && d < 128
    ensures g + p * d < 128 * p
  {
    assert p * d <= p * 127;
  }

  /** The slow path after `i` bytes with a continuation bit: `result` is what they spell, if they may still go on. */
  ghost predicate Slow(b: seq<Byte>, pos: nat, i: nat, result: U32) {
    && 1 <= i <= 5 && pos + i <= |b|
    && VarintEnd(b, pos) == VarintEnd(b, pos + i)
    && (i < 5 ==> result == Groups(b, pos, pos + i) < Pow2(7 * i) < 0x1_0000_0000)
  }

  lemma SlowStarts(b: seq<Byte>, pos: nat)
    requires pos < |b| && b[pos] >= 128
    ensures Slow(b, pos, 1, b[pos] % 128)
  {
    FivePowers();
    assert Groups(b, pos, pos + 1) == b[pos] % 128;
  }

  lemma SlowTooLong(b: seq<Byte>, pos: nat, result: U32)
    requires Slow(b, pos, 5, result)
    ensures DecodeVarint(b, pos) == None
  {
    hide Groups, Pow2;
  }

  lemma SlowEnds(b: seq<Byte>, pos: nat, i: nat, result: U32)
    requires Slow(b, pos, i, result) && pos + i == |b|
    ensures DecodeVarint(b, pos) == None
  {
    hide Groups, Pow2;
  }

  lemma SlowStep(b: seq<Byte>, pos: nat, i: nat, result: U32)
    requires Slow(b, pos, i, result) && i < 5 && pos + i < |b|
    ensures var r := OrShifted(result, b[pos + i], 7 * i);
            if b[pos + i] < 128 then DecodeVarint(b, pos) == Some(Read(r, pos + i + 1)) else Slow(b, pos, i + 1, r)
  {
    GroupStep(b, pos, i);
    assert b[pos + i] < 128 ==> VarintEnd(b, pos + i) == pos + i;
    assert b[pos + i] >= 128 ==> VarintEnd(b, pos + i) == VarintEnd(b, pos + i + 1);
    hide Groups, Pow2, OrShifted, Truncate, VarintEnd;
  }

  /** The slow path of the decoder: one byte read, more to come. */
  method DecodeVarintSlow(b: seq<Byte>, pos: nat, first: Byte) returns (r: Option<Read>)
    requires pos < |b| && b[pos] == first >= 128
    ensures r == DecodeVarint(b, pos)
  {
    hide *;
    var result: U32 := first % 128;
    var shift := 7;
    var i := 1;
    SlowStarts(b, pos);
    while pos + i < |b|
      invariant 1 <= i <= 5 && pos + i <= |b| && shift == 7 * i && Slow(b, pos, i, result)
    {
      var byte := b[pos + i];
      if shift >= 32 {
        SlowTooLong(b, pos, result);
        return None;
      }
      SlowStep(b, pos, i, result);
      result := OrShifted(result, byte, shift);
      if byte < 128 {
        return Some(Read(result, pos + i + 1));
      }
      shift := shift + 7;
      i := i + 1;
    }
    SlowEnds(b, pos, i, result);
    r := None;
  }

  method ReadVarint(b: seq<Byte>, pos: nat) returns (r: Option<Read>)
    requires pos <= |b|
    ensures r == DecodeVarint(b, pos)
  {
    if pos == |b| {
      return None;
    }
    var first := b[pos];
    if first < 128 {
      assert Groups(b, pos, pos + 1) == first;
      return Some(Read(first, pos + 1));
    }
    r := DecodeVarintSlow(b, pos, first);
  }

  /** `chunk` is what `b` holds at `pos`. */
  predicate Holds(b: seq<Byte>, pos: nat, chunk: seq<Byte>) {
    pos + |chunk| <= |b| && b[pos..pos + |chunk|] == chunk
  }

  lemma HoldsParts(b: seq<Byte>, pos: nat, x: seq<Byte>, y: seq<Byte>)
    requires Holds(b, pos, x + y)
    ensures Holds(b, pos, x) && Holds(b, pos + |x|, y) && pos + |x| + |y| <= |b|
  {
    var all := b[pos..pos + |x| + |y|];
    assert b[pos..pos + |x|] == all[..|x|] == x;
    assert b[pos + |x|..pos + |x| + |y|] == all[|x|..] == y;
  }

  lemma {:induction false} EncodedShape(v: U32, b: seq<Byte>, pos: nat)
    requires Holds(b, pos, EncodeVarint(v))
    ensures VarintEnd(b, pos) == pos + |EncodeVarint(v)| - 1
    ensures Groups(b, pos, pos + |EncodeVarint(v)|) == v
    decreases v
  {
    if v < 128 {
      assert b[pos] == v;
    } else {
      HoldsParts(b, pos, [v % 128 + 128], EncodeVarint(v / 128));
      assert b[pos] == v % 128 + 128;
      EncodedShape(v / 128, b, pos + 1);
    }
  }

  lemma {:induction false} EncodedLength(v: U32, n: nat)
    requires n > 0 && v < Pow2(7 * n)
    ensures |EncodeVarint(v)| <= n
    decreases n
  {
    if v >= 128 {
      PowStep(7 * (n - 1));
      EncodedLength(v / 128, n - 1);
    }
  }

  /** Decoding stops exactly at the end of what was encoded and gives it back. */
  lemma VarintRoundTrip(v: U32, b: seq<Byte>, pos: nat)
    requires Holds(b, pos, EncodeVarint(v))
    ensures DecodeVarint(b, pos) == Some(Read(v, pos + |EncodeVarint(v)|))
  {
    EncodedShape(v, b, pos);
    FivePowers();
    EncodedLength(v, 5);
  }

  // ------------------------------------------------------------ posting lists

  predicate SortedFrom(prev: U32, values: seq<U32>)
    decreases |values|
  {
    values == [] || (prev <= values[0] && SortedFrom(values[0], values[1..]))
  }

  /** Deltas of a sorted list, the first one taken against `prev`. */
  function EncodeDeltas(values: seq<U32>, prev: U32): seq<Byte>
    requires SortedFrom(prev, values)
  {
    if values == [] then []
    else EncodeVarint(values[0] - prev) + EncodeDeltas(values[1..], values[0])
  }

  method DeltaEncode(values: seq<U32>, buf: seq<Byte>) returns (out: seq<Byte>)
    requires SortedFrom(0, values)
    ensures out == buf + EncodeDeltas(values, 0)
  {
    var prev: U32 := 0;
    out := buf;
    var i := 0;
    while i < |values|
      invariant 0 <= i <= |values|
      invariant SortedFrom(prev, values[i..])
      invariant out + EncodeDeltas(values[i..], prev) == buf + EncodeDeltas(values, 0)
    {
      hide EncodeVarint;
      assert values[i..][1..] == values[i + 1..];
      out := WriteVarint(values[i] - prev, out);
      prev := values[i];
      i := i + 1;
    }
  }

  /** The values a byte string decodes to from `pos` on; a broken varint ends the list. */
  function DecodeDeltas(b: seq<Byte>, pos: nat, prev: U32): seq<U32>
    requires pos <= |b|
    decreases |b| - pos
  {
    match DecodeVarint(b, pos)
    case None => []
    case Some(d) =>
      var v := SaturatingAdd(prev, d.value);
      [v] + DecodeDeltas(b, d.next, v)
  }

  method DeltaDecode(b: seq<Byte>) returns (result: seq<U32>)
    ensures result == DecodeDeltas(b, 0, 0)
  {
    result := [];
    var prev: U32 := 0;
    var pos := 0;
    while pos < |b|
      invariant 0 <= pos <= |b|
      invariant result + DecodeDeltas(b, pos, prev) == DecodeDeltas(b, 0, 0)
    {
      var d := ReadVarint(b, pos);
      hide DecodeVarint;
      if d.None? {
        break;
      }
      prev := SaturatingAdd(prev, d.value.value);
      result := result + [prev];
      pos := d.value.next;
    }
  }

  /** The first value of an encoded list, and where the others start. */
  lemma FirstDelta(values: seq<U32>, prev: U32, b: seq<Byte>, pos: nat) returns (next: nat)
    requires values != [] && SortedFrom(prev, values) && Holds(b, pos, EncodeDeltas(values, prev))
    ensures pos <= |b| && DecodeVarint(b, pos) == Some(Read(values[0] - prev, next))
    ensures Holds(b, next, EncodeDeltas(values[1..], values[0]))
    ensures next + |EncodeDeltas(values[1..], values[0])| == pos + |EncodeDeltas(values, prev)|
  {
    var delta: U32 := values[0] - prev;
    assert EncodeDeltas(values, prev) == EncodeVarint(delta) + EncodeDeltas(values[1..], values[0]);
    HoldsParts(b, pos, EncodeVarint(delta), EncodeDeltas(values[1..], values[0]));
    next := pos + |EncodeVarint(delta)|;
    VarintRoundTrip(delta, b, pos);
  }

  lemma {:induction false} DeltaRoundTrip(values: seq<U32>, prev: U32, b: seq<Byte>, pos: nat)
    requires SortedFrom(prev, values)
    requires Holds(b, pos, EncodeDeltas(values, prev)) && pos + |EncodeDeltas(values, prev)| == |b|
    ensures DecodeDeltas(b, pos, prev) == values
    decreases |values|
  {
    if values != [] {
      var next := FirstDelta(values, prev, b, pos);
      hide Holds, DecodeVarint, EncodeDeltas;
      DeltaRoundTrip(values[1..], values[0], b, next);
      assert values == [values[0]] + values[1..];
    }
  }

  lemma {:induction false} NothingBelow(b: seq<Byte>, pos: nat, prev: U32)
    requires pos <= |b|
    ensures SortedFrom(prev, DecodeDeltas(b, pos, prev))
    ensures forall x :: x in DecodeDeltas(b, pos, prev) ==> prev <= x
    decreases |b| - pos
  {
    match DecodeVarint(b, pos)
    case None =>
    case Some(d) =>
      hide DecodeVarint;
      var v := SaturatingAdd(prev, d.value);
      NothingBelow(b, d.next, v);
      assert DecodeDeltas(b, pos, prev) == [v] + DecodeDeltas(b, d.next, v);
  }

  lemma DecodeStep(b: seq<Byte>, pos: nat, prev: U32)
    requires pos <= |b|
    ensures match DecodeVarint(b, pos)
            case None => DecodeDeltas(b, pos, prev) == []
            case Some(d) =>
              var v := SaturatingAdd(prev, d.value);
              Elements(DecodeDeltas(b, pos, prev)) == {v} + Elements(DecodeDeltas(b, d.next, v))
  {
    hide DecodeVarint;
  }

  /** `try_push` of a roaring bitmap: only a new maximum is accepted. */
  function TryPush(bitmap: set<U32>, v: U32): set<U32> {
    if exists x :: x in bitmap && x >= v then bitmap else bitmap + {v}
  }

  predicate UpTo(bitmap: set<U32>, top: U32) {
    forall x :: x in bitmap ==> x <= top
  }

  lemma PushNext(bitmap: set<U32>, prev: U32, v: U32)
    requires UpTo(bitmap, prev) && prev <= v && (prev == v ==> v in bitmap || bitmap == {})
    ensures TryPush(bitmap, v) == bitmap + {v} && UpTo(bitmap + {v}, v)
  {
  }

  method DeltaDecodeBitmap(b: seq<Byte>) returns (bitmap: set<U32>)
    ensures bitmap == Elements(DecodeDeltas(b, 0, 0))
  {
    bitmap := {};
    var prev: U32 := 0;
    var pos := 0;
    while pos < |b|
      invariant 0 <= pos <= |b|
      invariant bitmap + Elements(DecodeDeltas(b, pos, prev)) == Elements(DecodeDeltas(b, 0, 0))
      invariant UpTo(bitmap, prev) && (bitmap == {} || prev in bitmap)
    {
      var d := ReadVarint(b, pos);
      DecodeStep(b, pos, prev);
      hide DecodeVarint, DecodeDeltas, TryPush;
      if d.None? {
        break;
      }
      var v := SaturatingAdd(prev, d.value.value);
      PushNext(bitmap, prev, v);
      bitmap := TryPush(bitmap, v);
      prev := v;
      pos := d.value.next;
    }
  }

  /** `RoaringBitmap::max`. */
  function Max(s: set<U32>): (m: Option<U32>)
    ensures m.None? <==> s == {}
    ensures m.Some? ==> m.value in s && UpTo(s, m.value)
  {
    if s == {} then None else MaxExists(s); Some(var m: U32 :| m in s && UpTo(s, m); m)
  }

  lemma MaxExists(s: set<U32>)
    requires s != {}
    ensures exists m :: m in s && UpTo(s, m)
  {
    var x :| x in s;
    if s == {x} {
    } else {
      MaxExists(s - {x});
      var m :| m in s - {x} && UpTo(s - {x}, m);
      assert s == {x} + (s - {x});
      var top := if x > m then x else m;
      assert top in s && UpTo(s, top);
    }
  }

  /** Where an intersecting decode stands: what it kept and what is left make the answer. */
  ghost predicate Intersecting(b: seq<Byte>, pos: nat, prev: U32, bitmap: set<U32>, filter: set<U32>) {
    && pos <= |b|
    && bitmap + Elements(DecodeDeltas(b, pos, prev)) * filter == Elements(DecodeDeltas(b, 0, 0)) * filter
    && UpTo(bitmap, prev)
    && (prev in filter ==> prev in bitmap || bitmap == {})
  }

  lemma IntersectStep(b: seq<Byte>, pos: nat, prev: U32, bitmap: set<U32>, filter: set<U32>)
    requires Intersecting(b, pos, prev, bitmap, filter) && DecodeVarint(b, pos).Some?
    ensures var d := DecodeVarint(b, pos).value;
            var v := SaturatingAdd(prev, d.value);
            Intersecting(b, d.next, v, if v in filter then TryPush(bitmap, v) else bitmap, filter)
  {
    DecodeStep(b, pos, prev);
    hide DecodeVarint, DecodeDeltas;
    var v := SaturatingAdd(prev, DecodeVarint(b, pos).value.value);
    if v in filter {
      PushNext(bitmap, prev, v);
    }
  }

  /** Past the filter's maximum nothing that is still encoded can survive. */
  lemma StopEarly(b: seq<Byte>, pos: nat, prev: U32, filter: set<U32>, max: U32)
    requires UpTo(filter, max) && pos <= |b| && DecodeVarint(b, pos).Some?
    requires SaturatingAdd(prev, DecodeVarint(b, pos).value.value) > max
    ensures Elements(DecodeDeltas(b, pos, prev)) * filter == {}
  {
    DecodeStep(b, pos, prev);
    var d := DecodeVarint(b, pos).value;
    hide DecodeVarint, DecodeDeltas;
    NothingBelow(b, d.next, SaturatingAdd(prev, d.value));
  }

  /**
    Intersecting while decoding, with the early stop once values pass the
    filter's maximum, is decoding everything and intersecting afterwards: on
    every byte string, well formed or not.
  */
  method DeltaDecodeIntersect(b: seq<Byte>, filter: set<U32>) returns (bitmap: set<U32>)
    ensures bitmap == Elements(DecodeDeltas(b, 0, 0)) * filter
  {
    bitmap := {};
    var max := Max(filter);
    if max.None? {
      return;
    }
    var prev: U32 := 0;
    var pos := 0;
    assert Intersecting(b, pos, prev, bitmap, filter);
    hide DecodeVarint, TryPush;
    while pos < |b|
      invariant Intersecting(b, pos, prev, bitmap, filter)
    {
      var d := ReadVarint(b, pos);
      DecodeStep(b, pos, prev);
      if d.None? {
        return;
      }
      IntersectStep(b, pos, prev, bitmap, filter);
      var v := SaturatingAdd(prev, d.value.value);
      if v > max.value {
        StopEarly(b, pos, prev, filter, max.value);
        return;
      }
      if v in filter {
        bitmap := TryPush(bitmap, v);
      }
      prev := v;
      pos := d.value.next;
    }
    DecodeStep(b, pos, prev);
  }

  // -------------------------------------------------------- position postings

  /** One document's word positions. */
  datatype Entry = Entry(doc: U32, positions: seq<U32>)

  /** What the encoder needs of one entry after document `prev`. */
  predicate EncodableEntry(prev: U32, e: Entry) {
    prev <= e.doc && SortedFrom(0, e.positions) && |e.positions| <= U32_MAX
  }

  predicate Encodable(prev: U32, entries: seq<Entry>)
    decreases |entries|
  {
    entries == [] || (EncodableEntry(prev, entries[0]) && Encodable(entries[0].doc, entries[1..]))
  }

  function EncodeEntry(prev: U32, e: Entry): seq<Byte>
    requires EncodableEntry(prev, e)
  {
    EncodeVarint(e.doc - prev) + (EncodeVarint(|e.positions|) + EncodeDeltas(e.positions, 0))
  }

  function EncodePositions(entries: seq<Entry>, prev: U32): seq<Byte>
    requires Encodable(prev, entries)
  {
    if entries == [] then []
    else EncodeEntry(prev, entries[0]) + EncodePositions(entries[1..], entries[0].doc)
  }

  method WriteEntry(prev: U32, e: Entry, buf: seq<Byte>) returns (out: seq<Byte>)
    requires EncodableEntry(prev, e)
    ensures out == buf + EncodeEntry(prev, e)
  {
    hide EncodeVarint, EncodeDeltas, SortedFrom;
    out := WriteVarint(e.doc - prev, buf);
    out := WriteVarint(|e.positions|, out);
    out := DeltaEncode(e.positions, out);
  }

  method EncodePositionPostings(entries: seq<Entry>, buf: seq<Byte>) returns (out: seq<Byte>)
    requires Encodable(0, entries)
    ensures out == buf + EncodePositions(entries, 0)
  {
    var prev: U32 := 0;
    out := buf;
    var i := 0;
    while i < |entries|
      invariant 0 <= i <= |entries| && Encodable(prev, entries[i..])
      invariant out + EncodePositions(entries[i..], prev) == buf + EncodePositions(entries, 0)
    {
      hide EncodeEntry, EncodableEntry;
      assert entries[i..][1..] == entries[i + 1..];
      out := WriteEntry(prev, entries[i], out);
      prev := entries[i].doc;
      i := i + 1;
    }
  }

  /** Values decoded from a buffer and the position after them. */
  datatype Taken = Taken(values: seq<U32>, next: nat)

  /** At most `count` delta-coded values from `pos` on. */
  function TakeDeltas(b: seq<Byte>, pos: nat, count: nat, prev: U32): (t: Taken)
    requires pos <= |b|
    ensures pos <= t.next <= |b|
    decreases count
  {
    if count == 0 then Taken([], pos)
    else
      match DecodeVarint(b, pos)
      case None => Taken([], pos)
      case Some(d) =>
        var v := SaturatingAdd(prev, d.value);
        var t := TakeDeltas(b, d.next, count - 1, v);
        Taken([v] + t.values, t.next)
  }

  /** The two varints in front of a document's positions. */
  datatype Header = Header(delta: U32, count: U32, next: nat)

  function DecodeHeader(b: seq<Byte>, pos: nat): (r: Option<Header>)
    requires pos <= |b|
    ensures r.Some? ==> pos < r.value.next <= |b|
  {
    match DecodeVarint(b, pos)
    case None => None
    case Some(d) =>
      match DecodeVarint(b, d.next)
      case None => None
      case Some(c) => Some(Header(d.value, c.value, c.next))
  }

  /** What `decode_position_postings` returns on any byte string. */
  function DecodePositions(b: seq<Byte>, pos: nat, prev: U32): seq<Entry>
    requires pos <= |b|
    decreases |b| - pos
  {
    match DecodeHeader(b, pos)
    case None => []
    case Some(h) =>
      var doc := SaturatingAdd(prev, h.delta);
      var t := TakeDeltas(b, h.next, h.count, 0);
      [Entry(doc, t.values)] + DecodePositions(b, t.next, doc)
  }

  /** No varint is cut short or too long, and the counts are met. */
  predicate WellFormed(b: seq<Byte>, pos: nat)
    requires pos <= |b|
    decreases |b| - pos
  {
    pos == |b| ||
    match DecodeHeader(b, pos)
    case None => false
    case Some(h) =>
      var t := TakeDeltas(b, h.next, h.count, 0);
      |t.values| == h.count && WellFormed(b, t.next)
  }

  /** Where one lands by passing `count` last bytes, without decoding. */
  function SkipVarints(b: seq<Byte>, pos: nat, count: nat): (next: nat)
    requires pos <= |b|
    ensures pos <= next <= |b|
    decreases |b| - pos
  {
    if count == 0 || pos == |b| then pos
    else SkipVarints(b, pos + 1, if b[pos] < 128 then count - 1 else count)
  }

  /** What `decode_position_postings_filtered` returns on any byte string. */
  function DecodeFiltered(b: seq<Byte>, pos: nat, prev: U32, filter: set<U32>, max: U32): seq<Entry>
    requires pos <= |b|
    decreases |b| - pos
  {
    match DecodeHeader(b, pos)
    case None => []
    case Some(h) =>
      var doc := SaturatingAdd(prev, h.delta);
      if doc > max then []
      else if doc in filter then
        var t := TakeDeltas(b, h.next, h.count, 0);
        [Entry(doc, t.values)] + DecodeFiltered(b, t.next, doc, filter, max)
      else
        DecodeFiltered(b, SkipVarints(b, h.next, h.count), doc, filter, max)
  }

  /** The entries of the documents in `filter`, in order. */
  function Retain(entries: seq<Entry>, filter: set<U32>): seq<Entry> {
    if entries == [] then []
    else (if entries[0].doc in filter then [entries[0]] else []) + Retain(entries[1..], filter)
  }

  method ReadDeltas(b: seq<Byte>, start: nat, count: U32) returns (positions: seq<U32>, pos: nat)
    requires start <= |b|
    ensures Taken(positions, pos) == TakeDeltas(b, start, count, 0)
  {
    positions := [];
    pos := start;
    var prev: U32 := 0;
    var i := 0;
    while i < count
      invariant 0 <= i <= count && pos <= |b|
      invariant TakeDeltas(b, start, count, 0).values == positions + TakeDeltas(b, pos, count - i, prev).values
      invariant TakeDeltas(b, start, count, 0).next == TakeDeltas(b, pos, count - i, prev).next
    {
      var d := ReadVarint(b, pos);
      hide DecodeVarint;
      if d.None? {
        break;
      }
      prev := SaturatingAdd(prev, d.value.value);
      positions := positions + [prev];
      pos := d.value.next;
      i := i + 1;
    }
  }

  method SkipBytes(b: seq<Byte>, start: nat, count: U32) returns (pos: nat)
    requires start <= |b|
    ensures pos == SkipVarints(b, start, count)
  {
    pos := start;
    var remaining := count;
    while remaining > 0 && pos < |b|
      invariant pos <= |b| && SkipVarints(b, pos, remaining) == SkipVarints(b, start, count)
    {
      if b[pos] < 0x80 {
        remaining := remaining - 1;
      }
      pos := pos + 1;
    }
  }

  method ReadHeader(b: seq<Byte>, pos: nat) returns (r: Option<Header>)
    requires pos <= |b|
    ensures r == DecodeHeader(b, pos)
  {
    hide DecodeVarint;
    var d := ReadVarint(b, pos);
    if d.None? {
      return None;
    }
    var c := ReadVarint(b, d.value.next);
    if c.None? {
      return None;
    }
    r := Some(Header(d.value.value, c.value.value, c.value.next));
  }

  method DecodePositionPostings(b: seq<Byte>) returns (result: seq<Entry>)
    ensures result == DecodePositions(b, 0, 0)
  {
    result := [];
    var pos := 0;
    var prev: U32 := 0;
    while pos < |b|
      invariant 0 <= pos <= |b|
      invariant result + DecodePositions(b, pos, prev) == DecodePositions(b, 0, 0)
    {
      var h := ReadHeader(b, pos);
      hide DecodeHeader, TakeDeltas;
      if h.None? {
        break;
      }
      prev := SaturatingAdd(prev, h.value.delta);
      var positions, next := ReadDeltas(b, h.value.next, h.value.count);
      ConsMove(result, Entry(prev, positions), DecodePositions(b, next, prev));
      result := result + [Entry(prev, positions)];
      pos := next;
    }
  }

  method DecodePositionPostingsFiltered(b: seq<Byte>, filter: set<U32>) returns (result: seq<Entry>)
    ensures filter == {} ==> result == []
    ensures filter != {} ==> result == DecodeFiltered(b, 0, 0, filter, Max(filter).value)
  {
    result := [];
    var max := Max(filter);
    if max.None? {
      return;
    }
    var pos := 0;
    var prev: U32 := 0;
    while pos < |b|
      invariant 0 <= pos <= |b|
      invariant result + DecodeFiltered(b, pos, prev, filter, max.value) == DecodeFiltered(b, 0, 0, filter, max.value)
    {
      var h := ReadHeader(b, pos);
      hide DecodeHeader, TakeDeltas, SkipVarints;
      if h.None? {
        break;
      }
      prev := SaturatingAdd(prev, h.value.delta);
      if prev > max.value {
        break;
      }
      if prev in filter {
        var positions, next := ReadDeltas(b, h.value.next, h.value.count);
        ConsMove(result, Entry(prev, positions), DecodeFiltered(b, next, prev, filter, max.value));
        result := result + [Entry(prev, positions)];
        pos := next;
      } else {
        pos := SkipBytes(b, h.value.next, h.value.count);
      }
    }
  }

  lemma {:induction false} TakeEncoded(values: seq<U32>, prev: U32, b: seq<Byte>, pos: nat)
    requires SortedFrom(prev, values) && Holds(b, pos, EncodeDeltas(values, prev))
    ensures TakeDeltas(b, pos, |values|, prev) == Taken(values, pos + |EncodeDeltas(values, prev)|)
    decreases |values|
  {
    if values != [] {
      var next := FirstDelta(values, prev, b, pos);
      hide Holds, DecodeVarint, EncodeDeltas;
      TakeEncoded(values[1..], values[0], b, next);
      assert values == [values[0]] + values[1..];
    }
  }

  lemma EntryRoundTrip(prev: U32, e: Entry, b: seq<Byte>, pos: nat)
    requires EncodableEntry(prev, e) && Holds(b, pos, EncodeEntry(prev, e))
    ensures DecodeHeader(b, pos).Some?
    ensures var h := DecodeHeader(b, pos).value;
            && h.delta == e.doc - prev && h.count == |e.positions|
            && TakeDeltas(b, h.next, h.count, 0) == Taken(e.positions, pos + |EncodeEntry(prev, e)|)
  {
    hide Holds, DecodeVarint, TakeDeltas, EncodeVarint, EncodeDeltas, SortedFrom;
    var x, y, z := EncodeVarint(e.doc - prev), EncodeVarint(|e.positions|), EncodeDeltas(e.positions, 0);
    HoldsParts(b, pos, x, y + z);
    HoldsParts(b, pos + |x|, y, z);
    VarintRoundTrip(e.doc - prev, b, pos);
    VarintRoundTrip(|e.positions|, b, pos + |x|);
    TakeEncoded(e.positions, 0, b, pos + |x| + |y|);
  }

  /** The first entry of an encoded list, and where the others start. */
  lemma FirstEntry(entries: seq<Entry>, prev: U32, b: seq<Byte>, pos: nat) returns (next: nat)
    requires entries != [] && Encodable(prev, entries) && Holds(b, pos, EncodePositions(entries, prev))
    ensures Encodable(entries[0].doc, entries[1..])
    ensures pos <= |b| && DecodeHeader(b, pos).Some?
    ensures var h := DecodeHeader(b, pos).value;
            && SaturatingAdd(prev, h.delta) == entries[0].doc && h.count == |entries[0].positions|
            && TakeDeltas(b, h.next, h.count, 0) == Taken(entries[0].positions, next)
    ensures pos < next && Holds(b, next, EncodePositions(entries[1..], entries[0].doc))
    ensures next + |EncodePositions(entries[1..], entries[0].doc)| == pos + |EncodePositions(entries, prev)|
  {
    var x, y := EncodeEntry(prev, entries[0]), EncodePositions(entries[1..], entries[0].doc);
    hide EncodeEntry, EncodableEntry;
    assert EncodePositions(entries, prev) == x + y;
    HoldsParts(b, pos, x, y);
    EntryRoundTrip(prev, entries[0], b, pos);
    next := pos + |x|;
  }

  lemma FirstDecoded(b: seq<Byte>, pos: nat, prev: U32, h: Header, t: Taken)
    requires pos <= |b| && DecodeHeader(b, pos) == Some(h) && t == TakeDeltas(b, h.next, h.count, 0)
    ensures DecodePositions(b, pos, prev) ==
            [Entry(SaturatingAdd(prev, h.delta), t.values)] + DecodePositions(b, t.next, SaturatingAdd(prev, h.delta))
    ensures |t.values| == h.count && WellFormed(b, t.next) ==> WellFormed(b, pos)
  {
    hide DecodeHeader, TakeDeltas;
  }

  /** Positions come back as they went in, and the encoding is well formed. */
  lemma {:induction false} PositionsRoundTrip(entries: seq<Entry>, prev: U32, b: seq<Byte>, pos: nat)
    requires Encodable(prev, entries) && pos <= |b|
    requires Holds(b, pos, EncodePositions(entries, prev)) && pos + |EncodePositions(entries, prev)| == |b|
    ensures DecodePositions(b, pos, prev) == entries && WellFormed(b, pos)
    decreases |entries|
  {
    if entries == [] {
      assert DecodeVarint(b, pos).None?;
    } else {
      hide *;
      var next := FirstEntry(entries, prev, b, pos);
      var doc := entries[0].doc;
      FirstDecoded(b, pos, prev, DecodeHeader(b, pos).value, Taken(entries[0].positions, next));
      PositionsRoundTrip(entries[1..], doc, b, next);
      assert entries == [entries[0]] + entries[1..];
    }
  }

  lemma {:induction false} SkipOne(b: seq<Byte>, pos: nat, count: nat)
    requires count > 0 && pos <= |b| && VarintEnd(b, pos) < |b|
    ensures SkipVarints(b, pos, count) == SkipVarints(b, VarintEnd(b, pos) + 1, count - 1)
    decreases |b| - pos
  {
    if b[pos] >= 128 {
      SkipOne(b, pos + 1, count);
    }
  }

  /** When every varint is sound, skipping by last bytes lands where decoding would. */
  lemma {:induction false} SkipIsTake(b: seq<Byte>, pos: nat, count: nat, prev: U32)
    requires pos <= |b| && |TakeDeltas(b, pos, count, prev).values| == count
    ensures SkipVarints(b, pos, count) == TakeDeltas(b, pos, count, prev).next
    decreases count
  {
    if count > 0 {
      SkipOne(b, pos, count);
      var d := DecodeVarint(b, pos).value;
      hide DecodeVarint;
      SkipIsTake(b, d.next, count - 1, SaturatingAdd(prev, d.value));
    }
  }

  lemma {:induction false} DocsAscend(b: seq<Byte>, pos: nat, prev: U32, filter: set<U32>, max: U32)
    requires pos <= |b| && prev > max && UpTo(filter, max)
    ensures Retain(DecodePositions(b, pos, prev), filter) == []
    decreases |b| - pos
  {
    match DecodeHeader(b, pos)
    case None =>
    case Some(h) =>
      hide DecodeHeader, TakeDeltas;
      var doc := SaturatingAdd(prev, h.delta);
      DocsAscend(b, TakeDeltas(b, h.next, h.count, 0).next, doc, filter, max);
  }

  /** Stepping over varints by their last bytes, no document other than `doc` is ever come upon. */
  predicate Quiet(b: seq<Byte>, pos: nat, doc: U32)
    requires pos <= |b|
    decreases |b| - pos
  {
    match DecodeHeader(b, pos)
    case None => true
    case Some(h) => SaturatingAdd(doc, h.delta) == doc && Quiet(b, SkipVarints(b, h.next, h.count), doc)
  }

  /** Every list of positions is complete, or stepping over the broken one leads to no other document. */
  predicate Skippable(b: seq<Byte>, pos: nat, prev: U32)
    requires pos <= |b|
    decreases |b| - pos
  {
    match DecodeHeader(b, pos)
    case None => true
    case Some(h) =>
      var doc := SaturatingAdd(prev, h.delta);
      var t := TakeDeltas(b, h.next, h.count, 0);
      if |t.values| == h.count then Skippable(b, t.next, doc) else Quiet(b, SkipVarints(b, h.next, h.count), doc)
  }

  /** Well-formed input is skippable, and so is any beginning of it. */
  lemma {:induction false} WellFormedSkips(b: seq<Byte>, pos: nat, prev: U32)
    requires pos <= |b| && WellFormed(b, pos)
    ensures Skippable(b, pos, prev)
    decreases |b| - pos
  {
    match DecodeHeader(b, pos)
    case None =>
    case Some(h) =>
      var t := TakeDeltas(b, h.next, h.count, 0);
      hide DecodeHeader, TakeDeltas;
      WellFormedSkips(b, t.next, SaturatingAdd(prev, h.delta));
  }

  /** A list that breaks off leaves nothing the plain decoder goes on with. */
  lemma {:induction false} BrokenStops(b: seq<Byte>, pos: nat, count: nat, prev: U32)
    requires pos <= |b|
    ensures |TakeDeltas(b, pos, count, prev).values| <= count
    ensures var t := TakeDeltas(b, pos, count, prev);
            |t.values| < count ==> DecodeHeader(b, t.next) == None
    decreases count
  {
    if count > 0 && DecodeVarint(b, pos).Some? {
      var d := DecodeVarint(b, pos).value;
      BrokenStops(b, d.next, count - 1, SaturatingAdd(prev, d.value));
      hide DecodeVarint;
    }
  }

  lemma {:induction false} QuietFindsNothing(b: seq<Byte>, pos: nat, doc: U32, filter: set<U32>, max: U32)
    requires pos <= |b| && Quiet(b, pos, doc) && doc !in filter
    ensures DecodeFiltered(b, pos, doc, filter, max) == []
    decreases |b| - pos
  {
    match DecodeHeader(b, pos)
    case None =>
    case Some(h) =>
      hide DecodeHeader, SkipVarints;
      QuietFindsNothing(b, SkipVarints(b, h.next, h.count), doc, filter, max);
  }

  /** One document of the filtering decoder. */
  lemma FilteredStep(b: seq<Byte>, pos: nat, prev: U32, filter: set<U32>, max: U32, h: Header, t: Taken)
    requires pos <= |b| && DecodeHeader(b, pos) == Some(h) && t == TakeDeltas(b, h.next, h.count, 0)
    ensures var doc := SaturatingAdd(prev, h.delta);
            DecodeFiltered(b, pos, prev, filter, max) ==
            if doc > max then []
            else if doc in filter then [Entry(doc, t.values)] + DecodeFiltered(b, t.next, doc, filter, max)
            else DecodeFiltered(b, SkipVarints(b, h.next, h.count), doc, filter, max)
  {
    hide DecodeHeader, TakeDeltas, SkipVarints;
  }

  lemma RetainCons(e: Entry, rest: seq<Entry>, filter: set<U32>)
    ensures Retain([e] + rest, filter) == (if e.doc in filter then [e] else []) + Retain(rest, filter)
  {
    assert ([e] + rest)[1..] == rest;
  }

  lemma NothingFrom(b: seq<Byte>, pos: nat, prev: U32, filter: set<U32>, max: U32)
    requires pos <= |b| && DecodeHeader(b, pos) == None
    ensures DecodePositions(b, pos, prev) == [] && DecodeFiltered(b, pos, prev, filter, max) == []
  {
    hide DecodeHeader;
  }

  /** On skippable input, filtering while decoding is decoding and then filtering. */
  lemma {:induction false} FilteredIsRetain(b: seq<Byte>, pos: nat, prev: U32, filter: set<U32>, max: U32)
    requires pos <= |b| && Skippable(b, pos, prev) && UpTo(filter, max)
    ensures DecodeFiltered(b, pos, prev, filter, max) == Retain(DecodePositions(b, pos, prev), filter)
    decreases |b| - pos
  {
    match DecodeHeader(b, pos)
    case None => NothingFrom(b, pos, prev, filter, max);
    case Some(h) =>
      var doc := SaturatingAdd(prev, h.delta);
      var t := TakeDeltas(b, h.next, h.count, 0);
      BrokenStops(b, h.next, h.count, 0);
      FirstDecoded(b, pos, prev, h, t);
      FilteredStep(b, pos, prev, filter, max, h, t);
      RetainCons(Entry(doc, t.values), DecodePositions(b, t.next, doc), filter);
      if |t.values| == h.count {
        SkipIsTake(b, h.next, h.count, 0);
        hide DecodeHeader, TakeDeltas, SkipVarints, DecodePositions, DecodeFiltered, Retain;
        if doc > max {
          DocsAscend(b, t.next, doc, filter, max);
        } else {
          FilteredIsRetain(b, t.next, doc, filter, max);
        }
      } else {
        NothingFrom(b, t.next, doc, filter, max);
        hide DecodeHeader, TakeDeltas, SkipVarints, DecodePositions, DecodeFiltered;
        if doc <= max && doc !in filter {
          QuietFindsNothing(b, SkipVarints(b, h.next, h.count), doc, filter, max);
        }
      }
  }

  /** Where stepping over comes upon another document, a filter of just that one finds it. */
  lemma {:induction false} LoudIsFound(b: seq<Byte>, pos: nat, doc: U32) returns (x: U32)
    requires pos <= |b| && !Quiet(b, pos, doc)
    ensures x > doc && DecodeFiltered(b, pos, doc, {x}, x) != []
    decreases |b| - pos
  {
    var h := DecodeHeader(b, pos).value;
    x := SaturatingAdd(doc, h.delta);
    FilteredStep(b, pos, doc, {x}, x, h, TakeDeltas(b, h.next, h.count, 0));
    hide DecodeHeader, SkipVarints, TakeDeltas, DecodeFiltered;
    if x == doc {
      x := LoudIsFound(b, SkipVarints(b, h.next, h.count), doc);
      FilteredStep(b, pos, doc, {x}, x, h, TakeDeltas(b, h.next, h.count, 0));
    }
  }

  /** A complete list hands a difference further on to the front. */
  lemma DiffersFurtherOn(b: seq<Byte>, pos: nat, prev: U32, h: Header, x: U32)
    requires pos <= |b| && DecodeHeader(b, pos) == Some(h)
    requires |TakeDeltas(b, h.next, h.count, 0).values| == h.count
    requires var doc, t := SaturatingAdd(prev, h.delta), TakeDeltas(b, h.next, h.count, 0);
             x >= doc && DecodeFiltered(b, t.next, doc, {x}, x) != Retain(DecodePositions(b, t.next, doc), {x})
    ensures DecodeFiltered(b, pos, prev, {x}, x) != Retain(DecodePositions(b, pos, prev), {x})
  {
    var doc, t := SaturatingAdd(prev, h.delta), TakeDeltas(b, h.next, h.count, 0);
    hide *;
    FirstDecoded(b, pos, prev, h, t);
    SkipIsTake(b, h.next, h.count, 0);
    FilteredStep(b, pos, prev, {x}, x, h, t);
    RetainCons(Entry(doc, t.values), DecodePositions(b, t.next, doc), {x});
    var found, kept := DecodeFiltered(b, t.next, doc, {x}, x), Retain(DecodePositions(b, t.next, doc), {x});
    StillDiffer([Entry(doc, t.values)], found, kept);
    StillDiffer([], found, kept);
    assert [] + found == found;
  }

  lemma StillDiffer(front: seq<Entry>, x: seq<Entry>, y: seq<Entry>)
    requires x != y
    ensures front + x != front + y
  {
    assert (front + x)[|front|..] == x && (front + y)[|front|..] == y;
  }

  lemma DiffersAtBreak(b: seq<Byte>, pos: nat, prev: U32, h: Header, x: U32)
    requires pos <= |b| && DecodeHeader(b, pos) == Some(h)
    requires |TakeDeltas(b, h.next, h.count, 0).values| < h.count
    requires var doc := SaturatingAdd(prev, h.delta);
             x > doc && DecodeFiltered(b, SkipVarints(b, h.next, h.count), doc, {x}, x) != []
    ensures DecodeFiltered(b, pos, prev, {x}, x) != Retain(DecodePositions(b, pos, prev), {x})
  {
    var doc, t := SaturatingAdd(prev, h.delta), TakeDeltas(b, h.next, h.count, 0);
    FirstDecoded(b, pos, prev, h, t);
    BrokenStops(b, h.next, h.count, 0);
    NothingFrom(b, t.next, doc, {x}, x);
    FilteredStep(b, pos, prev, {x}, x, h, t);
    RetainCons(Entry(doc, t.values), DecodePositions(b, t.next, doc), {x});
    assert Retain([], {x}) == [];
    hide *;
  }

  lemma SkippableBy(b: seq<Byte>, pos: nat, prev: U32)
    requires pos <= |b| && !Skippable(b, pos, prev)
    ensures DecodeHeader(b, pos).Some?
    ensures var h := DecodeHeader(b, pos).value;
            var doc, t := SaturatingAdd(prev, h.delta), TakeDeltas(b, h.next, h.count, 0);
            && doc >= prev
            && (|t.values| == h.count ==> !Skippable(b, t.next, doc))
            && (|t.values| != h.count ==> !Quiet(b, SkipVarints(b, h.next, h.count), doc))
  {
    hide DecodeHeader, TakeDeltas, SkipVarints, Quiet;
  }

  /** Input that is not skippable tells the two decoders apart. */
  lemma {:induction false} UnskippableDiffers(b: seq<Byte>, pos: nat, prev: U32) returns (x: U32)
    requires pos <= |b| && !Skippable(b, pos, prev)
    ensures x >= prev && DecodeFiltered(b, pos, prev, {x}, x) != Retain(DecodePositions(b, pos, prev), {x})
    decreases |b| - pos
  {
    SkippableBy(b, pos, prev);
    var h := DecodeHeader(b, pos).value;
    var doc, t := SaturatingAdd(prev, h.delta), TakeDeltas(b, h.next, h.count, 0);
    BrokenStops(b, h.next, h.count, 0);
    hide *;
    if |t.values| == h.count {
      x := UnskippableDiffers(b, t.next, doc);
      DiffersFurtherOn(b, pos, prev, h, x);
    } else {
      x := LoudIsFound(b, SkipVarints(b, h.next, h.count), doc);
      DiffersAtBreak(b, pos, prev, h, x);
    }
  }

  /**
    The filtering decoder is the plain one followed by a filter, for every
    filter, if and only if the bytes are skippable.
  */
  lemma FilteredIsRetainIff(b: seq<Byte>)
    ensures (forall filter: set<U32> :: filter != {} ==>
               DecodeFiltered(b, 0, 0, filter, Max(filter).value) == Retain(DecodePositions(b, 0, 0), filter))
            <==> Skippable(b, 0, 0)
  {
    hide DecodeFiltered, DecodePositions, Retain, Skippable;
    if Skippable(b, 0, 0) {
      forall filter: set<U32> | filter != {}
        ensures DecodeFiltered(b, 0, 0, filter, Max(filter).value) == Retain(DecodePositions(b, 0, 0), filter)
      {
        FilteredIsRetain(b, 0, 0, filter, Max(filter).value);
      }
    } else {
      var x := UnskippableDiffers(b, 0, 0);
      var filter: set<U32> := {x};
      assert filter != {} && Max(filter).value == x;
    }
  }

  /** The headers of ten bytes whose first position is an overlong varint. */
  lemma OverlongHeaders(b: seq<Byte>)
    requires |b| == 10 && b[0] == 1 && b[1] == 1 && b[7] == 0 && b[8] == 4 && b[9] == 0
    requires forall j :: 2 <= j < 7 ==> b[j] == 128
    ensures DecodeVarint(b, 2).None? && SkipVarints(b, 2, 1) == 8
    ensures DecodeHeader(b, 0) == Some(Header(1, 1, 2)) && DecodeHeader(b, 2).None?
    ensures DecodeHeader(b, 8) == Some(Header(4, 0, 10)) && DecodeHeader(b, 10).None?
  {
    VarintEndIs(b, 2, 7);
    SkipOne(b, 2, 1);
    assert DecodeVarint(b, 0) == Some(Read(1, 1)) && DecodeVarint(b, 1) == Some(Read(1, 2));
    assert DecodeVarint(b, 8) == Some(Read(4, 9)) && DecodeVarint(b, 9) == Some(Read(0, 10));
  }

  /**
    Well-formedness is needed: a six-byte varint stops the plain decoder but is
    stepped over by the filtering one, which then finds a document the plain
    decoder never reaches.
  */
  lemma FilteredNeedsWellFormed(b: seq<Byte>)
    requires b == [1, 1, 128, 128, 128, 128, 128, 0, 4, 0]
    ensures Retain(DecodePositions(b, 0, 0), {5}) == [] && DecodeFiltered(b, 0, 0, {5}, 5) == [Entry(5, [])]
  {
    OverlongHeaders(b);
    hide DecodeVarint, DecodeHeader, SkipVarints;
    assert DecodePositions(b, 0, 0) == [Entry(1, [])];
    assert DecodeFiltered(b, 8, 1, {5}, 5) == [Entry(5, [])];
  }
}
