/** Characters, UTF-8 (section 3 of RFC 3629) and occurrences of one text in another. */
module Text {
  import opened Prelude
  import opened Sorting

  const LF: Byte := 10
  const CR: Byte := 13

  predicate IsUpper(c: char) { 'A' <= c <= 'Z' }
  predicate IsLower(c: char) { 'a' <= c <= 'z' }
  predicate IsDigit(c: char) { '0' <= c <= '9' }

  predicate IsAlnum(c: char) {
    IsUpper(c) || IsLower(c) || IsDigit(c)
  }

  function LowerChar(c: char): (r: char)
    ensures !IsUpper(r)
  {
    if IsUpper(c) then (c as int + 32) as char else c
  }

  /** `char::is_whitespace`. */
  predicate IsWhitespace(c: char) {
    var n := c as int;
    || 0x09 <= n <= 0x0D || n == 0x20 || n == 0x85 || n == 0xA0 || n == 0x1680
    || 0x2000 <= n <= 0x200A || n == 0x2028 || n == 0x2029 || n == 0x202F || n == 0x205F || n == 0x3000
  }

  /** Lower case for ASCII; other letters are kept. */
  function ToLower(s: string): (r: string)
    ensures |r| == |s| && forall i :: 0 <= i < |s| ==> r[i] == LowerChar(s[i])
  {
    seq(|s|, i requires 0 <= i < |s| => LowerChar(s[i]))
  }

  lemma LowerTwice(s: string)
    ensures ToLower(ToLower(s)) == ToLower(s)
  {
  }

  // ------------------------------------------------------------------- order

  /** Strings in character order. */
  predicate Before(p: string, q: string) {
    if p == "" then true
    else if q == "" then false
    else if p[0] != q[0] then p[0] < q[0]
    else Before(p[1..], q[1..])
  }

  lemma {:induction false} BeforeTotal(p: string, q: string)
    ensures Before(p, q) || Before(q, p)
  {
    if p != "" && q != "" && p[0] == q[0] {
      BeforeTotal(p[1..], q[1..]);
    }
  }

  lemma {:induction false} BeforeTransitive(p: string, q: string, r: string)
    requires Before(p, q) && Before(q, r)
    ensures Before(p, r)
  {
    if p != "" && q != "" && r != "" && p[0] == q[0] && q[0] == r[0] {
      BeforeTransitive(p[1..], q[1..], r[1..]);
    }
  }

  lemma {:induction false} BeforeBoth(p: string, q: string)
    requires Before(p, q) && Before(q, p)
    ensures p == q
  {
    if p != "" && q != "" {
      BeforeBoth(p[1..], q[1..]);
      assert p == [p[0]] + p[1..] && q == [q[0]] + q[1..];
    }
  }

  lemma BeforeIsOrder()
    ensures TotalOrder(Before)
  {
    forall p: string, q: string
      ensures Before(p, q) || Before(q, p)
    {
      BeforeTotal(p, q);
    }
    forall p: string, q: string, r: string | Before(p, q) && Before(q, r)
      ensures Before(p, r)
    {
      BeforeTransitive(p, q, r);
    }
  }

  // ------------------------------------------------------------------- UTF-8

  function Utf8Char(c: char): (b: seq<Byte>)
    ensures 1 <= |b| <= 4
    ensures c as int < 0x80 ==> b == [c as int]
    ensures c as int >= 0x80 ==> forall i :: 0 <= i < |b| ==> b[i] >= 0x80
  {
    var n := c as int;
    if n < 0x80 then [n]
    else if n < 0x800 then [0xC0 + n / 0x40, 0x80 + n % 0x40]
    else if n < 0x1_0000 then [0xE0 + n / 0x1000, 0x80 + n / 0x40 % 0x40, 0x80 + n % 0x40]
    else [0xF0 + n / 0x4_0000, 0x80 + n / 0x1000 % 0x40, 0x80 + n / 0x40 % 0x40, 0x80 + n % 0x40]
  }

  function Utf8(s: string): seq<Byte> {
    if s == [] then [] else Utf8(s[..|s| - 1]) + Utf8Char(s[|s| - 1])
  }

  lemma {:induction false} Utf8Concat(a: string, b: string)
    ensures Utf8(a + b) == Utf8(a) + Utf8(b)
    decreases |b|
  {
    hide Utf8Char;
    if b == [] {
      assert a + b == a;
    } else {
      var init, last := b[..|b| - 1], b[|b| - 1];
      assert (a + b)[..|a + b| - 1] == a + init;
      Utf8Concat(a, init);
      assert Utf8(a) + (Utf8(init) + Utf8Char(last)) == (Utf8(a) + Utf8(init)) + Utf8Char(last);
    }
  }

  /** A byte a character starts with. */
  predicate IsLead(b: Byte) {
    b < 0x80 || b >= 0xC0
  }

  function LengthFromLead(b: Byte): nat {
    if b < 0x80 then 1 else if b < 0xE0 then 2 else if b < 0xF0 then 3 else 4
  }

  lemma Utf8CharShape(c: char)
    ensures IsLead(Utf8Char(c)[0]) && |Utf8Char(c)| == LengthFromLead(Utf8Char(c)[0])
    ensures forall i :: 0 < i < |Utf8Char(c)| ==> !IsLead(Utf8Char(c)[i])
  {
  }

  lemma Utf8CharsDiffer(a: char, b: char)
    requires Utf8Char(a) == Utf8Char(b)
    ensures a == b
  {
    Utf8CharShape(a);
    Utf8CharShape(b);
    assert a as int == Decode(Utf8Char(a)) by { DecodesBack(a); }
    assert b as int == Decode(Utf8Char(b)) by { DecodesBack(b); }
  }

  /** The number a character's bytes stand for. */
  function Decode(s: seq<int>): int
    requires 1 <= |s| <= 4
  {
    if |s| == 1 then s[0]
    else if |s| == 2 then (s[0] - 0xC0) * 0x40 + (s[1] - 0x80)
    else if |s| == 3 then ((s[0] - 0xE0) * 0x40 + (s[1] - 0x80)) * 0x40 + (s[2] - 0x80)
    else (((s[0] - 0xF0) * 0x40 + (s[1] - 0x80)) * 0x40 + (s[2] - 0x80)) * 0x40 + (s[3] - 0x80)
  }

  lemma Quotients(n: nat)
    ensures n / 0x1000 == n / 0x40 / 0x40
    ensures n / 0x4_0000 == n / 0x1000 / 0x40
  {
  }

  lemma DecodesBack(c: char)
    ensures Decode(Utf8Char(c)) == c as int
  {
    var n := c as int;
    Quotients(n);
    assert n == n / 0x40 * 0x40 + n % 0x40;
    assert n / 0x40 == n / 0x1000 * 0x40 + n / 0x40 % 0x40;
    assert n / 0x1000 == n / 0x4_0000 * 0x40 + n / 0x1000 % 0x40;
  }

  /** Every start byte of an encoded text is the start of one of its characters. */
  lemma {:induction false} StartsChar(s: string, p: nat) returns (o: nat)
    requires p < |Utf8(s)| && IsLead(Utf8(s)[p])
    ensures o < |s| && |Utf8(s[..o])| == p
    decreases |s|
  {
    var init := s[..|s| - 1];
    var n := |Utf8(init)|;
    Utf8CharShape(s[|s| - 1]);
    hide Utf8Char;
    if p < n {
      o := StartsChar(init, p);
      assert init[..o] == s[..o];
    } else {
      assert Utf8(s)[p] == Utf8Char(s[|s| - 1])[p - n];
      o := |s| - 1;
    }
  }

  lemma Utf8Cons(s: string)
    requires s != ""
    ensures Utf8(s) == Utf8Char(s[0]) + Utf8(s[1..])
  {
    var head := [s[0]];
    assert head[..0] == "";
    assert Utf8(head) == Utf8("") + Utf8Char(s[0]);
    assert Utf8("") + Utf8Char(s[0]) == Utf8Char(s[0]);
    assert s == head + s[1..];
    Utf8Concat(head, s[1..]);
  }

  /** Characters whose encodings start alike are the same. */
  lemma SameFirstChar(a: char, b: char, rest: seq<Byte>, more: seq<Byte>)
    requires Utf8Char(a) + rest <= Utf8Char(b) + more
    ensures a == b && rest <= more
  {
    Utf8CharShape(a);
    Utf8CharShape(b);
    var x, y := Utf8Char(a) + rest, Utf8Char(b) + more;
    assert x[0] == y[0] == Utf8Char(b)[0];
    var n := |Utf8Char(a)|;
    assert n == |Utf8Char(b)|;
    assert Utf8Char(a) == x[..n] == y[..n] == Utf8Char(b);
    Utf8CharsDiffer(a, b);
    assert rest == x[n..] && more == y[n..];
  }

  lemma {:induction false} PrefixChars(s: string, t: string)
    requires Utf8(t) <= Utf8(s)
    ensures t <= s
    decreases |t|
  {
    if t != "" {
      Utf8Cons(t);
      assert |Utf8(t)| > 0;
      assert s != "";
      Utf8Cons(s);
      hide Utf8, Utf8Char;
      SameFirstChar(t[0], s[0], Utf8(t[1..]), Utf8(s[1..]));
      PrefixChars(s[1..], t[1..]);
      assert t == [t[0]] + t[1..] && s == [s[0]] + s[1..];
    }
  }

  /** UTF-8 synchronizes itself: an occurrence in the bytes is an occurrence in the characters. */
  lemma CharsContain(s: string, t: string) returns (o: nat)
    requires t != "" && Contains(Utf8(s), Utf8(t))
    ensures At(s, t, o)
  {
    var p: nat :| 0 <= p <= |Utf8(s)| && At(Utf8(s), Utf8(t), p);
    Utf8Cons(t);
    Utf8CharShape(t[0]);
    hide Utf8, Utf8Char;
    hide Contains;
    SameAt(Utf8(s), Utf8(t), p);
    o := StartsChar(s, p);
    CharsAt(s, t, o, p);
  }

  lemma SameAt(hay: seq<Byte>, needle: seq<Byte>, p: nat)
    requires needle != [] && At(hay, needle, p)
    ensures p < |hay| && hay[p] == needle[0]
  {
    assert hay[p] == hay[p..p + |needle|][0];
  }

  lemma CharsAt(s: string, t: string, o: nat, p: nat)
    requires o <= |s| && |Utf8(s[..o])| == p && At(Utf8(s), Utf8(t), p)
    ensures At(s, t, o)
  {
    hide Utf8;
    var head, tail := s[..o], s[o..];
    assert s == head + tail;
    Utf8Concat(head, tail);
    PrefixAt(Utf8(head), Utf8(tail), Utf8(t));
    PrefixChars(tail, t);
    assert s[o..o + |t|] == tail[..|t|];
  }

  lemma PrefixAt(a: seq<Byte>, b: seq<Byte>, t: seq<Byte>)
    requires At(a + b, t, |a|)
    ensures t <= b
  {
    assert b[..|t|] == (a + b)[|a|..|a| + |t|];
  }

  predicate IsScalar(n: int) {
    0 <= n < 0xD800 || 0xE000 <= n < 0x11_0000
  }

  /** The character a byte string starts with, if it starts with one. */
  function FirstChar(b: seq<Byte>): (r: Option<char>)
    requires b != []
    ensures r.Some? ==> Utf8Char(r.value) <= b
  {
    var n := LengthFromLead(b[0]);
    if !IsLead(b[0]) || n > |b| then None
    else
      var v := Decode(b[..n]);
      if IsScalar(v) && Utf8Char(v as char) == b[..n] then Some(v as char) else None
  }

  /** `from_utf8_lossy`, with one replacement character for each byte that starts no character. */
  function FromUtf8Lossy(b: seq<Byte>): string
    decreases |b|
  {
    if b == [] then ""
    else
      match FirstChar(b)
      case None => [0xFFFD as char] + FromUtf8Lossy(b[1..])
      case Some(c) => [c] + FromUtf8Lossy(b[|Utf8Char(c)|..])
  }

  lemma FirstCharIs(c: char, rest: seq<Byte>)
    ensures FirstChar(Utf8Char(c) + rest) == Some(c)
  {
    var b := Utf8Char(c) + rest;
    Utf8CharShape(c);
    DecodesBack(c);
    hide Utf8Char, Decode, IsLead, LengthFromLead;
    assert b[0] == Utf8Char(c)[0];
    assert b[..|Utf8Char(c)|] == Utf8Char(c);
  }

  /** Decoding an encoded text gives the text. */
  lemma {:induction false} LossyRoundTrip(s: string)
    ensures FromUtf8Lossy(Utf8(s)) == s
    decreases |s|
  {
    if s != "" {
      Utf8Cons(s);
      FirstCharIs(s[0], Utf8(s[1..]));
      LossyRoundTrip(s[1..]);
      hide Utf8, Utf8Char, FirstChar;
      var b := Utf8(s);
      assert b[|Utf8Char(s[0])|..] == Utf8(s[1..]);
      assert s == [s[0]] + s[1..];
    }
  }

  predicate IsAscii(b: seq<Byte>) {
    forall i :: 0 <= i < |b| ==> b[i] < 0x80
  }

  // ------------------------------------------------------------- occurrences

  /** `needle` stands at offset `i` of `hay`. */
  predicate At<T(==)>(hay: seq<T>, needle: seq<T>, i: nat) {
    i + |needle| <= |hay| && hay[i..i + |needle|] == needle
  }

  predicate Contains<T(==)>(hay: seq<T>, needle: seq<T>) {
    exists i :: 0 <= i <= |hay| && At(hay, needle, i)
  }

}
