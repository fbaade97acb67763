/**
  Phrases by word positions: when the words of a query stand in a text at the
  query's own distances (src/utils/tokenizer.rs:171-298, src/index/reader.rs:688-763).
*/
module Phrases {
  import opened Text
  import opened Index
  import opened Tokenizer

  /** The words of the phrase stand in the list from `start` on, at the phrase's distances. */
  ghost predicate StandsAt(l: seq<Positioned>, phrase: seq<Positioned>, start: nat) {
    forall k :: 0 <= k < |phrase| ==> (phrase[k].0, start + phrase[k].1 - phrase[0].1) in l
  }

  ghost predicate StandsIn(l: seq<Positioned>, phrase: seq<Positioned>) {
    exists start: nat :: StandsAt(l, phrase, start)
  }

  /** The first word of the text is at its very start, and of a length that is indexed. */
  ghost predicate StartsWithToken(q: string) {
    exists b: nat :: IsWord(q, 0, b) && Indexable(b)
  }

  ghost predicate EndsWithToken(q: string) {
    exists a: nat :: IsWord(q, a, |q|) && Indexable(|q| - a)
  }

  // ------------------------------------------------------- occurrences that carry

  /** An occurrence at which no token at the edge of the query is part of a longer word. */
  ghost predicate Whole(s: string, q: string, o: nat) {
    && At(s, q, o)
    && (StartsWithToken(q) ==> Boundary(s, o))
    && (EndsWithToken(q) ==> Boundary(s, o + |q|))
  }

  lemma SameChars(s: string, q: string, o: nat, i: nat)
    requires At(s, q, o) && i < |q|
    ensures s[o + i] == q[i]
  {
    assert s[o..o + |q|][i] == q[i];
  }

  lemma InnerCut(s: string, q: string, o: nat, i: nat)
    requires At(s, q, o) && 0 < i < |q|
    ensures Cut(s, o + i) <==> Cut(q, i)
  {
    SameChars(s, q, o, i);
    SameChars(s, q, o, i - 1);
  }

  lemma {:induction false} ShiftedIndex(s: string, q: string, o: nat, n: nat)
    requires At(s, q, o) && 1 <= n <= |q|
    ensures WordIndex(s, o + n) - WordIndex(s, o + 1) == WordIndex(q, n) - WordIndex(q, 1)
  {
    if n > 1 {
      ShiftedIndex(s, q, o, n - 1);
      SameChars(s, q, o, n - 1);
      InnerCut(s, q, o, n - 1);
    }
  }

  lemma ShiftedWord(s: string, q: string, o: nat, a: nat, b: nat)
    requires Whole(s, q, o) && IsWord(q, a, b) && Indexable(b - a)
    ensures IsWord(s, o + a, o + b) && s[o + a..o + b] == q[a..b]
  {
    hide Indexable;
    forall i | o + a <= i < o + b
      ensures IsAlnum(s[i]) && s[i] == q[i - o]
      ensures o + a < i ==> !Cut(s, i)
    {
      SameChars(s, q, o, i - o);
      if o + a < i { InnerCut(s, q, o, i - o); }
    }
    if a > 0 { InnerCut(s, q, o, a); }
    if b < |q| { InnerCut(s, q, o, b); }
  }

  /** Where a word of the query stands in the text. */
  lemma ShiftedStart(s: string, q: string, o: nat, a: nat)
    requires Whole(s, q, o) && a < |q| && StartsWord(q, a) && (a == 0 ==> StartsWithToken(q))
    ensures WordIndex(s, o + a) == WordIndex(s, o + 1) + WordIndex(q, a) - WordIndex(q, 1)
  {
    if a > 0 {
      ShiftedIndex(s, q, o, a);
    } else {
      SameChars(s, q, o, 0);
      assert StartsWord(s, o);
      assert WordIndex(q, 0) == 0 && WordIndex(q, 1) == 1;
    }
  }

  lemma ShiftedToken(s: string, q: string, o: nat, t: Token, k: nat)
    requires Whole(s, q, o) && (t, k) in Tokens(q)
    ensures q != "" && o + 1 <= |s| && WordIndex(s, o + 1) + k >= WordIndex(q, 1)
    ensures (t, WordIndex(s, o + 1) + k - WordIndex(q, 1)) in Tokens(s)
  {
    hide *;
    TokensAreWords(q, t, k);
    var a: nat, b: nat :| WordIs(q, a, b, t, k);
    WordParts(q, a, b, t, k);
    AtFits(s, q, o);
    if a == 0 {
      WordStarts(q, b);
    }
    ShiftedWord(s, q, o, a, b);
    ShiftedStart(s, q, o, a);
    MakesWord(s, o + a, o + b, t, WordIndex(s, o + a));
    TokensAreWords(s, t, WordIndex(s, o + a));
  }

  lemma AtFits(s: string, q: string, o: nat)
    requires Whole(s, q, o)
    ensures o + |q| <= |s|
  {
  }

  lemma WordStarts(q: string, b: nat)
    requires IsWord(q, 0, b) && Indexable(b)
    ensures StartsWithToken(q)
  {
  }

  lemma WordParts(s: string, a: nat, b: nat, t: Token, k: nat)
    requires WordIs(s, a, b, t, k)
    ensures a < b <= |s| && IsWord(s, a, b) && Indexable(b - a) && t == ToLower(s[a..b]) && k == WordIndex(s, a)
    ensures StartsWord(s, a)
  {
  }

  lemma MakesWord(s: string, a: nat, b: nat, t: Token, k: nat)
    requires IsWord(s, a, b) && Indexable(b - a) && t == ToLower(s[a..b]) && k == WordIndex(s, a)
    ensures WordIs(s, a, b, t, k)
  {
  }

  /**
    At an occurrence whose edge tokens are whole words of the text, the words of
    the query stand in the text: each at the position it has in the query,
    shifted by one number.
  */
  lemma WholeStands(s: string, q: string, o: nat)
    requires Whole(s, q, o) && Tokens(q) != []
    ensures StandsIn(Tokens(s), Tokens(q))
  {
    var phrase := Tokens(q);
    hide Tokens, Whole, WordIndex;
    assert phrase[0] in phrase;
    ShiftedToken(s, q, o, phrase[0].0, phrase[0].1);
    var start := WordIndex(s, o + 1) + phrase[0].1 - WordIndex(q, 1);
    forall k | 0 <= k < |phrase|
      ensures (phrase[k].0, start + phrase[k].1 - phrase[0].1) in Tokens(s)
    {
      var (t, pos) := phrase[k];
      assert (t, pos) in phrase;
      ShiftedToken(s, q, o, t, pos);
    }
    assert StandsAt(Tokens(s), phrase, start);
  }

  // ---------------------------------------------------- occurrences that do not

  lemma NoneInside(q: string, a: nat, b: nat)
    requires IsWord(q, a, b)
    ensures a < b <= |q| && Boundary(q, a) && Boundary(q, b)
    ensures forall i :: a < i < b ==> !Boundary(q, i)
  {
  }

  lemma OneWordAt(q: string, a: nat, b: nat, c: nat)
    requires IsWord(q, a, b) && IsWord(q, a, c)
    ensures b == c
  {
    NoneInside(q, a, b);
    NoneInside(q, a, c);
    hide IsWord, Boundary;
  }

  lemma OneWordTo(q: string, a: nat, c: nat, b: nat)
    requires IsWord(q, a, b) && IsWord(q, c, b)
    ensures a == c
  {
    NoneInside(q, a, b);
    NoneInside(q, c, b);
    hide IsWord, Boundary;
  }

  /** The first word of a list of tokens, if it is at position `k` and none is before. */
  lemma FirstToken(q: string, t: Token, k: nat)
    requires (t, k) in Tokens(q) && forall u: Token, j: nat :: (u, j) in Tokens(q) ==> k <= j
    ensures Tokens(q)[0] == (t, k)
  {
    var l := Tokens(q);
    TokensIncrease(q);
    hide Tokens;
    var i :| 0 <= i < |l| && l[i] == (t, k);
    assert (l[0].0, l[0].1) in l;
  }

  lemma LastToken(q: string, t: Token, k: nat)
    requires (t, k) in Tokens(q) && forall u: Token, j: nat :: (u, j) in Tokens(q) ==> j <= k
    ensures Tokens(q)[|Tokens(q)| - 1] == (t, k)
  {
    var l := Tokens(q);
    TokensIncrease(q);
    hide Tokens;
    var i :| 0 <= i < |l| && l[i] == (t, k);
    assert (l[|l| - 1].0, l[|l| - 1].1) in l;
  }

  lemma {:induction false} IndexGrows(s: string, a: nat, b: nat)
    requires a <= b <= |s|
    ensures WordIndex(s, a) <= WordIndex(s, b)
    ensures a < b && StartsWord(s, a) ==> WordIndex(s, a) < WordIndex(s, b)
    decreases b
  {
    if a < b {
      IndexGrows(s, a, b - 1);
    }
  }

  // ------------------------------------------------------------ joined at the start

  /** The character is taken into the word the text starts with. */
  predicate JoinsStart(c: char, q: string) {
    q != "" && IsAlnum(c) && IsAlnum(q[0]) && !(IsLower(c) && IsUpper(q[0]))
  }

  lemma StartIndex(q: string, c: char, n: nat)
    requires JoinsStart(c, q) && 1 <= n <= |q|
    ensures WordIndex([c] + q, n + 1) == WordIndex(q, n)
  {
    var s := [c] + q;
    assert At(s, q, 1) by { assert s[1..1 + |q|] == q; }
    assert s[0] == c && s[1] == q[0];
    assert !Cut(s, 1);
    assert WordIndex(s, 1) == 1 && WordIndex(s, 2) == 1;
    assert WordIndex(q, 1) == 1;
    hide WordIndex;
    ShiftedIndex(s, q, 1, n);
  }

  /** Words after the first are words of the query; the first is one longer. */
  lemma StartWords(q: string, c: char, a: nat, b: nat)
    requires JoinsStart(c, q) && IsWord([c] + q, a, b)
    ensures a == 0 ==> b >= 2 && IsWord(q, 0, b - 1)
    ensures a > 0 ==> a >= 2 && IsWord(q, a - 1, b - 1) && ([c] + q)[a..b] == q[a - 1..b - 1]
  {
    assert q != "";
    hide *;
    StartCuts(q, c);
    WordParts3([c] + q, a, b);
    WordBack(q, c, a, b);
    if a > 0 {
      SliceBack(q, c, a, b);
    }
  }

  lemma SliceBack(q: string, c: char, a: nat, b: nat)
    requires 0 < a <= b <= |q| + 1
    ensures ([c] + q)[a..b] == q[a - 1..b - 1]
  {
  }

  lemma WordBack(q: string, c: char, a: nat, b: nat)
    requires var s := [c] + q;
             && |q| > 0 && a < b <= |s| && (a > 0 ==> Cut(s, a)) && (b < |s| ==> Cut(s, b)) && !Cut(s, 1)
             && (forall i :: a <= i < b ==> IsAlnum(s[i])) && (forall i :: a < i < b ==> !Cut(s, i))
             && |s| == |q| + 1 && (forall i :: 0 <= i < |q| ==> s[i + 1] == q[i])
             && (forall i :: 0 < i < |q| ==> (Cut(s, i + 1) <==> Cut(q, i)))
    ensures a == 0 ==> b >= 2 && IsWord(q, 0, b - 1)
    ensures a > 0 ==> a >= 2 && IsWord(q, a - 1, b - 1)
  {
    var s := [c] + q;
    hide Cut, IsAlnum;
    var from := if a == 0 then 0 else a - 1;
    forall i | from <= i < b - 1
      ensures IsAlnum(q[i])
      ensures from < i ==> !Cut(q, i)
    {
      assert IsAlnum(s[i + 1]);
      if from < i { assert !Cut(s, i + 1); }
    }
  }

  /** Joined at the start, the text has the query's cuts, one place on. */
  lemma StartCuts(q: string, c: char)
    requires JoinsStart(c, q)
    ensures |[c] + q| == |q| + 1 && !Cut([c] + q, 1)
    ensures forall i :: 0 <= i < |q| ==> ([c] + q)[i + 1] == q[i]
    ensures forall i :: 0 < i < |q| ==> (Cut([c] + q, i + 1) <==> Cut(q, i))
  {
    var s := [c] + q;
    assert At(s, q, 1) by { assert s[1..1 + |q|] == q; }
    forall i | 0 < i < |q|
      ensures Cut(s, i + 1) <==> Cut(q, i)
    {
      InnerCut(s, q, 1, i);
    }
  }

  lemma WordParts3(s: string, a: nat, b: nat)
    requires IsWord(s, a, b)
    ensures a < b <= |s| && (a > 0 ==> Cut(s, a)) && (b < |s| ==> Cut(s, b))
    ensures forall i :: a <= i < b ==> IsAlnum(s[i])
    ensures forall i :: a < i < b ==> !Cut(s, i)
  {
  }

  /** The tokens after one character is joined at the start. */
  lemma StartTokens(q: string, c: char, b: nat, t: Token, k: nat)
    requires JoinsStart(c, q) && IsWord(q, 0, b) && (t, k) in Tokens([c] + q)
    ensures k == 0 ==> |t| == b + 1
    ensures k > 0 ==> (t, k) in Tokens(q)
  {
    var s := [c] + q;
    assert s[0] == c && IsAlnum(c);
    hide *;
    TokensAreWords(s, t, k);
    var x: nat, y: nat :| WordIs(s, x, y, t, k);
    WordParts(s, x, y, t, k);
    StartWords(q, c, x, y);
    LowerLength(s[x..y]);
    if x == 0 {
      OneWordAt(q, 0, b, y - 1);
      NoneBefore(s);
    } else {
      StartIndex(q, c, x - 1);
      MakesWord(q, x - 1, y - 1, t, k);
      TokensAreWords(q, t, k);
      FirstCounts(s, x);
    }
  }

  lemma NoneBefore(s: string)
    ensures WordIndex(s, 0) == 0
  {
  }

  lemma LowerLength(s: string)
    ensures |ToLower(s)| == |s|
  {
  }

  lemma FirstCounts(s: string, x: nat)
    requires 2 <= x <= |s| && IsAlnum(s[0])
    ensures WordIndex(s, x) > 0
  {
    assert StartsWord(s, 0);
    hide WordIndex;
    IndexGrows(s, 0, x);
  }

  /** With a character joined at the start, the query's words no longer stand in the text. */
  lemma StartJoined(q: string, c: char)
    requires StartsWithToken(q) && JoinsStart(c, q)
    ensures Tokens(q) != [] && !StandsIn(Tokens([c] + q), Tokens(q))
  {
    var s := [c] + q;
    var b: nat :| IsWord(q, 0, b) && Indexable(b);
    var t := ToLower(q[..b]);
    assert |t| == b;
    assert (t, 0) in Tokens(q) by { EdgeToken(q, 0, b); NoneBefore(q); assert q[0..b] == q[..b]; }
    FirstToken(q, t, 0);
    var phrase := Tokens(q);
    var m := |phrase| - 1;
    TokensIncrease(q);
    hide Tokens, ToLower, IsWord, JoinsStart;
    forall start: nat | StandsAt(Tokens(s), phrase, start)
      ensures false
    {
      var k := start + phrase[m].1 - phrase[0].1;
      assert (phrase[m].0, k) in Tokens(s);
      StartTokens(q, c, b, phrase[m].0, k);
      if k > 0 {
        assert (phrase[m].0, k) in phrase;
        LastIsLast(q, phrase[m].0, k);
      }
      assert start == 0;
      assert (phrase[0].0, start + phrase[0].1 - phrase[0].1) in Tokens(s);
      StartTokens(q, c, b, t, 0);
      assert false;
    }
  }

  lemma LastIsLast(q: string, t: Token, k: nat)
    requires (t, k) in Tokens(q)
    ensures k <= Tokens(q)[|Tokens(q)| - 1].1
  {
    var l := Tokens(q);
    TokensIncrease(q);
    hide Tokens;
    var i :| 0 <= i < |l| && l[i] == (t, k);
  }

  lemma FirstIsFirst(q: string, t: Token, k: nat)
    requires (t, k) in Tokens(q)
    ensures Tokens(q)[0].1 <= k
  {
    var l := Tokens(q);
    TokensIncrease(q);
    hide Tokens;
    var i :| 0 <= i < |l| && l[i] == (t, k);
  }

  lemma EdgeToken(q: string, a: nat, b: nat)
    requires IsWord(q, a, b) && Indexable(b - a)
    ensures (ToLower(q[a..b]), WordIndex(q, a)) in Tokens(q)
  {
    assert WordIs(q, a, b, ToLower(q[a..b]), WordIndex(q, a));
    hide *;
    TokensAreWords(q, ToLower(q[a..b]), WordIndex(q, a));
  }

  // -------------------------------------------------------------- joined at the end

  /** The character is taken into the word the text ends with. */
  predicate JoinsEnd(q: string, c: char) {
    q != "" && IsAlnum(c) && IsAlnum(q[|q| - 1]) && !(IsLower(q[|q| - 1]) && IsUpper(c))
  }

  lemma {:induction false} EndIndex(q: string, c: char, n: nat)
    requires n <= |q|
    ensures WordIndex(q + [c], n) == WordIndex(q, n)
  {
    if n > 0 {
      EndIndex(q, c, n - 1);
    }
  }

  /** Words before the last are words of the query; the last is one longer. */
  lemma EndWords(q: string, c: char, a: nat, b: nat)
    requires JoinsEnd(q, c) && IsWord(q + [c], a, b)
    ensures b == |q| + 1 ==> a < |q| && IsWord(q, a, |q|)
    ensures b <= |q| ==> b < |q| && IsWord(q, a, b) && (q + [c])[a..b] == q[a..b]
  {
    var s := q + [c];
    assert !Cut(s, |q|);
    forall i | 0 < i < |q|
      ensures Cut(s, i) <==> Cut(q, i)
    {
    }
    assert a != |q| && b != |q|;
    var to := if b == |q| + 1 then |q| else b;
    forall i | a <= i < to
      ensures IsAlnum(q[i])
      ensures a < i ==> !Cut(q, i)
    {
      assert IsAlnum(s[i]);
      if a < i { assert !Cut(s, i); }
    }
  }

  /** The tokens after one character is joined at the end. */
  lemma EndTokens(q: string, c: char, a: nat, t: Token, k: nat)
    requires JoinsEnd(q, c) && IsWord(q, a, |q|) && (t, k) in Tokens(q + [c])
    ensures k <= WordIndex(q, a)
    ensures k == WordIndex(q, a) ==> |t| == |q| - a + 1
    ensures k < WordIndex(q, a) ==> (t, k) in Tokens(q)
  {
    var s := q + [c];
    assert |s| == |q| + 1;
    assert StartsWord(q, a) by { WordBegins(q, a, |q|); }
    hide *;
    TokensAreWords(s, t, k);
    var x: nat, y: nat :| WordIs(s, x, y, t, k);
    WordParts(s, x, y, t, k);
    EndWords(q, c, x, y);
    LowerLength(s[x..y]);
    EndIndex(q, c, x);
    if y == |q| + 1 {
      OneWordTo(q, a, x, |q|);
    } else {
      MakesWord(q, x, y, t, k);
      TokensAreWords(q, t, k);
      WordBegins(q, x, y);
      WordsApart(q, x, y, a);
      IndexGrows(q, x, a);
    }
  }

  lemma WordBegins(q: string, a: nat, b: nat)
    requires IsWord(q, a, b)
    ensures a < b <= |q| && StartsWord(q, a)
  {
  }

  lemma WordsApart(q: string, x: nat, y: nat, a: nat)
    requires IsWord(q, x, y) && IsWord(q, a, |q|) && y < |q|
    ensures x < a
  {
    assert Cut(q, y);
  }

  /** With a character joined at the end, the query's words no longer stand in the text. */
  lemma EndJoined(q: string, c: char)
    requires EndsWithToken(q) && JoinsEnd(q, c)
    ensures Tokens(q) != [] && !StandsIn(Tokens(q + [c]), Tokens(q))
  {
    var s := q + [c];
    var a: nat :| IsWord(q, a, |q|) && Indexable(|q| - a);
    var t, last := ToLower(q[a..]), WordIndex(q, a);
    assert |t| == |q| - a;
    assert (t, last) in Tokens(q) by { EdgeToken(q, a, |q|); assert q[a..|q|] == q[a..]; }
    assert forall u: Token, j: nat :: (u, j) in Tokens(q) ==> j <= last by { NoneAfter(q, a); }
    LastToken(q, t, last);
    var phrase := Tokens(q);
    var m := |phrase| - 1;
    hide Tokens, ToLower, IsWord, JoinsEnd, WordIndex;
    forall start: nat | StandsAt(Tokens(s), phrase, start)
      ensures false
    {
      assert (phrase[0].0, start + phrase[0].1 - phrase[0].1) in Tokens(s);
      EndTokens(q, c, a, phrase[0].0, start);
      FirstIsFirst(q, t, last);
      if start < last {
        FirstIsFirst(q, phrase[0].0, start);
      }
      assert (phrase[m].0, start + phrase[m].1 - phrase[0].1) in Tokens(s);
      EndTokens(q, c, a, t, start + last - phrase[0].1);
    }
  }

  /** No word starts after the last one. */
  lemma NoneAfter(q: string, a: nat)
    requires a <= |q| && IsWord(q, a, |q|)
    ensures forall u: Token, j: nat :: (u, j) in Tokens(q) ==> j <= WordIndex(q, a)
  {
    hide *;
    forall u: Token, j: nat | (u, j) in Tokens(q)
      ensures j <= WordIndex(q, a)
    {
      TokensAreWords(q, u, j);
      var x: nat, y: nat :| WordIs(q, x, y, u, j);
      WordParts(q, x, y, u, j);
      WordBegins(q, a, |q|);
      if x > a {
        WordInside(q, x, y, a);
      }
      IndexGrows(q, x, a);
    }
  }

  lemma WordInside(q: string, x: nat, y: nat, a: nat)
    requires IsWord(q, x, y) && IsWord(q, a, |q|)
    ensures x <= a
  {
    NoneInside(q, a, |q|);
    NoneInside(q, x, y);
    hide IsWord, Boundary;
  }
}
