/**
  Tokens and their word positions (src/utils/tokenizer.rs). Small texts are
  scanned character by character into a buffer, larger ones byte by byte with
  slice indices; both must see the same words.
*/
module Tokenizer {
  import opened Prelude
  import opened Text
  import opened Index

  const MAX_TOKEN_LENGTH := 128

  type Positioned = (Token, nat)

  // ----------------------------------------------------------- words of a text

  /** A word ends between two characters: either is no letter or digit, or lower case meets upper. */
  predicate Cut(s: string, i: nat)
    requires 0 < i < |s|
  {
    !IsAlnum(s[i - 1]) || !IsAlnum(s[i]) || (IsLower(s[i - 1]) && IsUpper(s[i]))
  }

  predicate Boundary(s: string, i: nat)
    requires i <= |s|
  {
    i == 0 || i == |s| || Cut(s, i)
  }

  ghost predicate IsWord(s: string, a: nat, b: nat) {
    && a < b <= |s|
    && Boundary(s, a) && Boundary(s, b)
    && (forall i :: a <= i < b ==> IsAlnum(s[i]))
    && (forall i :: a < i < b ==> !Cut(s, i))
  }

  predicate StartsWord(s: string, i: nat)
    requires i < |s|
  {
    IsAlnum(s[i]) && Boundary(s, i)
  }

  /** How many words start before `n`: the position of a word starting there. */
  function WordIndex(s: string, n: nat): nat
    requires n <= |s|
  {
    if n == 0 then 0 else WordIndex(s, n - 1) + if StartsWord(s, n - 1) then 1 else 0
  }

  predicate Indexable(n: nat) {
    2 <= n <= MAX_TOKEN_LENGTH
  }

  /** Token `t` at position `k` is a word of the text, of a length that is kept. */
  ghost predicate WordIs(s: string, a: nat, b: nat, t: Token, k: nat) {
    IsWord(s, a, b) && Indexable(b - a) && t == ToLower(s[a..b]) && k == WordIndex(s, a)
  }

  // ------------------------------------------------------------------ scanning

  /** The scanner: buffer, whether the last character was lower case, word counter, output. */
  datatype Scan = Scan(current: string, prevLower: bool, wordPos: nat, out: seq<Positioned>)

  const START := Scan("", false, 0, [])

  function EndToken(st: Scan): Scan {
    if st.current == "" then st
    else
      Scan("", st.prevLower, st.wordPos + 1,
           st.out + if Indexable(|st.current|) then [(ToLower(st.current), st.wordPos)] else [])
  }

  function Step(st: Scan, c: char): Scan {
    if IsLower(c) || IsDigit(c) then st.(current := st.current + [c], prevLower := IsLower(c))
    else if IsUpper(c) then
      var closed := if st.prevLower then EndToken(st) else st;
      closed.(current := closed.current + [LowerChar(c)], prevLower := false)
    else EndToken(st).(prevLower := false)
  }

  function ScanFirst(s: string, n: nat): Scan
    requires n <= |s|
  {
    if n == 0 then START else Step(ScanFirst(s, n - 1), s[n - 1])
  }

  /** The tokens of a text with their positions. */
  function Tokens(s: string): seq<Positioned> {
    EndToken(ScanFirst(s, |s|)).out
  }

  function Names(l: seq<Positioned>): set<Token> {
    set i | 0 <= i < |l| :: l[i].0
  }

  // --------------------------------------------- what the scanner finds: words

  /** The closed words are out, and the buffer holds the open one. */
  ghost predicate Scanned(s: string, n: nat, st: Scan)
    requires n <= |s|
  {
    var m := |st.current|;
    && m <= n
    && (if m == 0 then n == 0 || !IsAlnum(s[n - 1]) else StartsWord(s, n - m))
    && st.current == ToLower(s[n - m..n])
    && (forall i :: n - m <= i < n ==> IsAlnum(s[i]))
    && (forall i :: n - m < i < n ==> !Cut(s, i))
    && (st.prevLower <==> n > 0 && IsLower(s[n - 1]))
    && st.wordPos == WordIndex(s, n - m)
  }

  ghost predicate WordBy(s: string, n: nat, t: Token, k: nat) {
    exists a: nat, b: nat :: b <= n && WordIs(s, a, b, t, k)
  }

  /** The output is the words that end by `n`. */
  ghost predicate Output(s: string, n: nat, out: seq<Positioned>) {
    forall t: Token, k: nat :: (t, k) in out <==> WordBy(s, n, t, k)
  }

  lemma OneWordOpen(s: string, n: nat, m: nat, a: nat, b: nat)
    requires m <= n <= |s| && IsWord(s, a, b) && n - m < b <= n
    requires StartsWord(s, n - m)
    requires forall i :: n - m < i < n ==> !Cut(s, i)
    ensures a == n - m && b == n
  {
  }

  /** Closing the open word puts it out. */
  lemma Closes(s: string, n: nat, st: Scan)
    requires n <= |s| && Scanned(s, n, st) && st.current != "" && Boundary(s, n)
    requires Output(s, n - |st.current|, st.out)
    ensures Output(s, n, EndToken(st).out)
  {
    var m := |st.current|;
    var word := s[n - m..n];
    LowerTwice(word);
    hide ToLower, WordIndex;
    assert IsWord(s, n - m, n);
    assert Indexable(m) ==> WordIs(s, n - m, n, ToLower(word), st.wordPos);
    forall a: nat, b: nat | IsWord(s, a, b) && n - m < b <= n
      ensures a == n - m && b == n
    {
      OneWordOpen(s, n, m, a, b);
    }
    hide Scanned, IsWord;
    var out := EndToken(st).out;
    forall t: Token, k: nat
      ensures (t, k) in out <==> WordBy(s, n, t, k)
    {
      assert (t, k) in out <==> (t, k) in st.out || (Indexable(m) && t == ToLower(word) && k == st.wordPos);
      if a: nat, b: nat :| b <= n && WordIs(s, a, b, t, k) {
        if b > n - m {
          assert IsWord(s, a, b);
        }
      }
    }
  }

  lemma NoWordEndsAt(s: string, n: nat, out: seq<Positioned>)
    requires n < |s| && !IsAlnum(s[n]) && Output(s, n, out)
    ensures Output(s, n + 1, out)
  {
    forall a: nat, b: nat | b <= n + 1 && IsWord(s, a, b)
      ensures b <= n
    {
    }
    hide IsWord;
    forall t: Token, k: nat
      ensures (t, k) in out <==> WordBy(s, n + 1, t, k)
    {
      if a: nat, b: nat :| b <= n + 1 && WordIs(s, a, b, t, k) {
        assert b <= n;
      }
    }
  }

  lemma {:induction false} SameIndex(s: string, a: nat, b: nat)
    requires a <= b <= |s| && forall i :: a <= i < b ==> !StartsWord(s, i)
    ensures WordIndex(s, a) == WordIndex(s, b)
    decreases b
  {
    if a < b {
      SameIndex(s, a, b - 1);
    }
  }

  /** The counter after a closed word: the word itself is the only start passed. */
  lemma NextIndex(s: string, n: nat, m: nat)
    requires 0 < m <= n <= |s| && StartsWord(s, n - m) && forall i :: n - m < i < n ==> !Cut(s, i)
    ensures WordIndex(s, n) == WordIndex(s, n - m) + 1
  {
    SameIndex(s, n - m + 1, n);
  }

  lemma EndScanned(s: string, n: nat, st: Scan)
    requires n <= |s| && Scanned(s, n, st)
    ensures EndToken(st).wordPos == WordIndex(s, n) && EndToken(st).current == ""
  {
    hide ToLower, Indexable, WordIndex, Cut;
    if st.current != "" {
      NextIndex(s, n, |st.current|);
    }
  }

  lemma StepOther(s: string, n: nat, st: Scan)
    requires n < |s| && Scanned(s, n, st) && Output(s, n - |st.current|, st.out) && !IsAlnum(s[n])
    ensures Scanned(s, n + 1, Step(st, s[n])) && Output(s, n + 1, Step(st, s[n]).out)
  {
    EndScanned(s, n, st);
    assert !StartsWord(s, n);
    assert Boundary(s, n);
    if st.current != "" {
      Closes(s, n, st);
    }
    hide Output;
    NoWordEndsAt(s, n, EndToken(st).out);
  }

  /** One more character joins the open word, or opens one. */
  lemma StepJoins(s: string, n: nat, st: Scan)
    requires n < |s| && Scanned(s, n, st) && IsAlnum(s[n]) && !(IsUpper(s[n]) && st.prevLower)
    ensures Scanned(s, n + 1, Step(st, s[n])) && |Step(st, s[n]).current| == |st.current| + 1
  {
    var m := |st.current|;
    assert s[n - m..n + 1] == s[n - m..n] + [s[n]];
    hide WordIndex;
    if m == 0 {
      assert StartsWord(s, n);
    } else {
      assert !Cut(s, n);
    }
  }

  lemma StepCamel(s: string, n: nat, st: Scan)
    requires n < |s| && Scanned(s, n, st) && IsUpper(s[n]) && st.prevLower && Output(s, n - |st.current|, st.out)
    ensures Scanned(s, n + 1, Step(st, s[n])) && Output(s, n + 1 - |Step(st, s[n]).current|, Step(st, s[n]).out)
  {
    EndScanned(s, n, st);
    assert Cut(s, n);
    assert st.current != "";
    Closes(s, n, st);
    hide Output, WordIndex;
    assert s[n..n + 1] == [s[n]];
    assert [] + [LowerChar(s[n])] == [LowerChar(s[n])];
    assert EndToken(st).current + [LowerChar(s[n])] == ToLower([s[n]]);
  }

  ghost predicate Found(s: string, n: nat, st: Scan)
    requires n <= |s|
  {
    Scanned(s, n, st) && Output(s, n - |st.current|, st.out)
  }

  lemma StepFinds(s: string, n: nat, st: Scan)
    requires n < |s| && Found(s, n, st)
    ensures Found(s, n + 1, Step(st, s[n]))
  {
    hide Output;
    if !IsAlnum(s[n]) {
      StepOther(s, n, st);
      EndScanned(s, n, st);
    } else if IsUpper(s[n]) && st.prevLower {
      StepCamel(s, n, st);
    } else {
      StepJoins(s, n, st);
    }
  }

  lemma {:induction false} ScanFinds(s: string, n: nat)
    requires n <= |s|
    ensures Found(s, n, ScanFirst(s, n))
  {
    if n > 0 {
      ScanFinds(s, n - 1);
      StepFinds(s, n - 1, ScanFirst(s, n - 1));
      hide Found, Step;
    }
  }

  /** The scanner finds exactly the words of the text, each at the number of words before it. */
  lemma TokensAreWords(s: string, t: Token, k: nat)
    ensures (t, k) in Tokens(s) <==> exists a: nat, b: nat :: WordIs(s, a, b, t, k)
  {
    ScanFinds(s, |s|);
    var st := ScanFirst(s, |s|);
    if st.current != "" {
      Closes(s, |s|, st);
    }
    hide ScanFirst, Scanned;
    assert Output(s, |s|, Tokens(s));
    hide Tokens;
    if a: nat, b: nat :| WordIs(s, a, b, t, k) {
      assert b <= |s|;
    }
  }

  // ---------------------------------------------------------- positions increase

  ghost predicate Increasing(l: seq<Positioned>, bound: nat) {
    && (forall i, j :: 0 <= i < j < |l| ==> l[i].1 < l[j].1)
    && (forall i :: 0 <= i < |l| ==> l[i].1 < bound)
  }

  lemma {:induction false} ScanIncreases(s: string, n: nat)
    requires n <= |s|
    ensures Increasing(ScanFirst(s, n).out, ScanFirst(s, n).wordPos)
  {
    if n > 0 {
      ScanIncreases(s, n - 1);
    }
  }

  lemma TokensIncrease(s: string)
    ensures forall i, j :: 0 <= i < j < |Tokens(s)| ==> Tokens(s)[i].1 < Tokens(s)[j].1
  {
    ScanIncreases(s, |s|);
  }

  // --------------------------------------------------------- the two scanners

  method ExtractTokensWithPositionsSimple(content: string) returns (result: seq<Positioned>)
    ensures result == Tokens(content)
  {
    result := [];
    var currentToken: string := "";
    var prevLower := false;
    var wordPos := 0;
    var i := 0;
    while i < |content|
      invariant 0 <= i <= |content| && Scan(currentToken, prevLower, wordPos, result) == ScanFirst(content, i)
    {
      var ch := content[i];
      if IsLower(ch) || IsDigit(ch) {
        currentToken := currentToken + [ch];
      } else if IsUpper(ch) {
        if prevLower && currentToken != "" {
          if 2 <= |currentToken| <= MAX_TOKEN_LENGTH {
            result := result + [(ToLower(currentToken), wordPos)];
          }
          wordPos := wordPos + 1;
          currentToken := "";
        }
        currentToken := currentToken + [LowerChar(ch)];
      } else if currentToken != "" {
        if 2 <= |currentToken| <= MAX_TOKEN_LENGTH {
          result := result + [(ToLower(currentToken), wordPos)];
        }
        wordPos := wordPos + 1;
        currentToken := "";
      }
      prevLower := IsLower(ch);
      i := i + 1;
    }
    if currentToken != "" && 2 <= |currentToken| <= MAX_TOKEN_LENGTH {
      result := result + [(ToLower(currentToken), wordPos)];
    }
  }

  /** Bytes read as characters of the same number. */
  function Latin(b: seq<Byte>): (s: string)
    ensures |s| == |b| && forall i :: 0 <= i < |b| ==> s[i] == b[i] as char
  {
    seq(|b|, i requires 0 <= i < |b| => b[i] as char)
  }

  /** What the slice indices of the byte scanner stand for. */
  ghost predicate Slices(s: string, start: Option<nat>, i: nat, st: Scan)
    requires i <= |s|
  {
    match start
    case None => st.current == ""
    case Some(a) => a < i && st.current == ToLower(s[a..i])
  }

  function SliceToken(s: string, a: nat, i: nat, wordPos: nat): seq<Positioned>
    requires a <= i <= |s|
  {
    if Indexable(i - a) then [(ToLower(s[a..i]), wordPos)] else []
  }

  lemma SliceEnds(s: string, a: nat, i: nat, st: Scan)
    requires i <= |s| && Slices(s, Some(a), i, st)
    ensures EndToken(st) == Scan("", st.prevLower, st.wordPos + 1, st.out + SliceToken(s, a, i, st.wordPos))
  {
    LowerTwice(s[a..i]);
  }

  lemma SliceGrows(s: string, a: nat, i: nat, st: Scan, c: char)
    requires i < |s| && (Slices(s, Some(a), i, st) || (a == i && st.current == "")) && c == LowerChar(s[i])
    ensures Slices(s, Some(a), i + 1, st.(current := st.current + [c]))
  {
    assert s[a..i + 1] == s[a..i] + [s[i]];
    assert ToLower(s[a..i + 1]) == ToLower(s[a..i]) + [LowerChar(s[i])];
    if a == i {
      assert s[a..i] == "";
    }
  }

  method ScanBytes(bytes: seq<Byte>) returns (result: seq<Positioned>)
    ensures result == Tokens(Latin(bytes))
  {
    hide ToLower, Indexable, EndToken;
    ghost var s := Latin(bytes);
    ghost var st := START;
    result := [];
    var tokenStart: Option<nat> := None;
    var prevWasLower := false;
    var wordPos := 0;
    var i := 0;
    while i < |bytes|
      invariant 0 <= i <= |bytes| && st == ScanFirst(s, i) && Slices(s, tokenStart, i, st)
      invariant st.prevLower == prevWasLower && st.wordPos == wordPos && st.out == result
      invariant prevWasLower ==> tokenStart.Some?
    {
      var ch := bytes[i] as char;
      hide Slices;
      ghost var was := st;
      st := Step(st, s[i]);
      if IsLower(ch) || IsUpper(ch) || IsDigit(ch) {
        if IsUpper(ch) && prevWasLower {
          SliceEnds(s, tokenStart.value, i, was);
          result := result + SliceToken(Latin(bytes), tokenStart.value, i, wordPos);
          wordPos := wordPos + 1;
          tokenStart := Some(i);
          SliceGrows(s, i, i, EndToken(was), LowerChar(ch));
        } else {
          SlicesEmpty(s, tokenStart, i, was);
          tokenStart := if tokenStart.None? then Some(i) else tokenStart;
          SliceGrows(s, tokenStart.value, i, was, LowerChar(ch));
        }
        prevWasLower := IsLower(ch);
      } else {
        SlicesEmpty(s, tokenStart, i, was);
        EmptyEnd(was);
        if tokenStart.Some? {
          SliceEnds(s, tokenStart.value, i, was);
          result := result + SliceToken(Latin(bytes), tokenStart.value, i, wordPos);
          wordPos := wordPos + 1;
        }
        tokenStart := None;
        prevWasLower := false;
      }
      SlicesSame(s, tokenStart, i + 1, st);
      i := i + 1;
    }
    SlicesEmpty(s, tokenStart, |bytes|, st);
    EmptyEnd(st);
    if tokenStart.Some? {
      SliceEnds(s, tokenStart.value, |bytes|, st);
      result := result + SliceToken(Latin(bytes), tokenStart.value, |bytes|, wordPos);
    }
  }

  lemma SlicesEmpty(s: string, start: Option<nat>, i: nat, st: Scan)
    requires i <= |s| && Slices(s, start, i, st)
    ensures start.None? <==> st.current == ""
    ensures start.Some? ==> start.value < i
  {
  }

  lemma SlicesSame(s: string, start: Option<nat>, i: nat, st: Scan)
    requires i <= |s|
    requires start.None? ==> st.current == ""
    ensures start.None? ==> Slices(s, start, i, st)
  {
  }

  // ------------------------------------------------ bytes against characters

  lemma {:induction false} ScanOthers(s: string, n: nat, m: nat)
    requires n < m <= |s| && forall i :: n <= i < m ==> !IsAlnum(s[i])
    ensures ScanFirst(s, m) == EndToken(ScanFirst(s, n)).(prevLower := false)
    decreases m
  {
    if n < m - 1 {
      ScanOthers(s, n, m - 1);
    }
  }

  lemma {:induction false} ScanPrefix(s: string, t: string, n: nat)
    requires n <= |s| <= |t| && t[..|s|] == s
    ensures ScanFirst(t, n) == ScanFirst(s, n)
  {
    if n > 0 {
      ScanPrefix(s, t, n - 1);
      assert t[n - 1] == t[..|s|][n - 1];
    }
  }

  /** The bytes of a character, none of them a letter or digit unless the character is one. */
  lemma BytesOfChar(t: string, n: nat, c: char)
    requires n <= |t| && t[n..] == Latin(Utf8Char(c))
    ensures ScanFirst(t, |t|) == Step(ScanFirst(t, n), c)
  {
    hide Step, EndToken;
    var b := Utf8Char(c);
    assert forall i :: n <= i < |t| ==> t[i] == t[n..][i - n] == b[i - n] as char;
    hide Utf8Char;
    if c as int < 0x80 {
      assert |t| == n + 1 && t[n] == c;
    } else {
      OtherStep(ScanFirst(t, n), c);
      forall i | n <= i < |t|
        ensures !IsAlnum(t[i])
      {
        assert b[i - n] >= 0x80;
      }
      ScanOthers(t, n, |t|);
    }
  }

  lemma {:induction false} BytesScanAlike(s: string)
    ensures ScanFirst(Latin(Utf8(s)), |Utf8(s)|) == ScanFirst(s, |s|)
    decreases |s|
  {
    if s != "" {
      var init, c := s[..|s| - 1], s[|s| - 1];
      BytesScanAlike(init);
      hide Step, EndToken, Utf8Char;
      ScanPrefix(init, s, |init|);
      var t, n := Latin(Utf8(s)), |Utf8(init)|;
      assert t[..n] == Latin(Utf8(init)) && t[n..] == Latin(Utf8Char(c));
      ScanPrefix(Latin(Utf8(init)), t, n);
      BytesOfChar(t, n, c);
    }
  }

  lemma OtherStep(st: Scan, c: char)
    requires !IsAlnum(c)
    ensures Step(st, c) == EndToken(st).(prevLower := false)
  {
  }

  /** Whatever scanner the size selects, the tokens and positions are those of the text. */
  method ExtractTokensWithPositions(content: string) returns (result: seq<Positioned>)
    ensures result == Tokens(content)
  {
    var bytes := Utf8(content);
    if |bytes| < 256 {
      result := ExtractTokensWithPositionsSimple(content);
    } else {
      result := ScanBytes(bytes);
      BytesScanAlike(content);
    }
  }

  // -------------------------------------------------- the set and indexed forms

  lemma NamesSnoc(l: seq<Positioned>, x: Positioned)
    ensures Names(l + [x]) == Names(l) + {x.0}
  {
    var m := l + [x];
    forall t
      ensures t in Names(m) <==> t in Names(l) || t == x.0
    {
      if i :| 0 <= i < |l| && l[i].0 == t {
        assert m[i].0 == t;
      }
      assert m[|l|].0 == x.0;
    }
  }

  /** The character scanner without positions. */
  method ExtractTokensSimple(content: string) returns (tokens: set<Token>)
    ensures tokens == Names(Tokens(content))
  {
    tokens := {};
    var currentToken: string := "";
    var prevLower := false;
    ghost var st := START;
    var i := 0;
    while i < |content|
      invariant 0 <= i <= |content| && st == ScanFirst(content, i)
      invariant st.current == currentToken && st.prevLower == prevLower && tokens == Names(st.out)
    {
      var ch := content[i];
      NamesOfEnd(st);
      hide Names, EndToken;
      EmptyEnd(st);
      st := Step(st, ch);
      if IsLower(ch) || IsDigit(ch) {
        currentToken := currentToken + [ch];
      } else if IsUpper(ch) {
        if prevLower && currentToken != "" {
          tokens := AddToken(tokens, currentToken);
          currentToken := "";
        }
        currentToken := currentToken + [LowerChar(ch)];
      } else if currentToken != "" {
        tokens := AddToken(tokens, currentToken);
        currentToken := "";
      }
      prevLower := IsLower(ch);
      i := i + 1;
    }
    NamesOfEnd(st);
    hide Names;
    if currentToken != "" {
      tokens := AddToken(tokens, currentToken);
    }
  }

  lemma NamesOfEnd(st: Scan)
    ensures Names(EndToken(st).out) == if st.current == "" then Names(st.out) else AddToken(Names(st.out), st.current)
    ensures EndToken(st).current == "" && EndToken(st).prevLower == st.prevLower
  {
    NamesSnoc(st.out, (ToLower(st.current), st.wordPos));
    assert st.out + [] == st.out;
    hide Names;
  }

  lemma EmptyEnd(st: Scan)
    ensures st.current == "" ==> EndToken(st) == st
  {
  }

  function AddToken(tokens: set<Token>, token: string): set<Token> {
    if Indexable(|token|) then tokens + {ToLower(token)} else tokens
  }

  /** The byte scanner without positions. */
  method ExtractTokens(content: string) returns (tokens: set<Token>)
    ensures tokens == Names(Tokens(content))
  {
    var bytes := Utf8(content);
    if |bytes| < 256 {
      tokens := ExtractTokensSimple(content);
      return;
    }
    BytesScanAlike(content);
    tokens := TokenSetOfBytes(bytes);
  }

  method TokenSetOfBytes(bytes: seq<Byte>) returns (tokens: set<Token>)
    ensures tokens == Names(Tokens(Latin(bytes)))
  {
    hide ToLower, Indexable, EndToken;
    ghost var s := Latin(bytes);
    ghost var st := START;
    tokens := {};
    var tokenStart: Option<nat> := None;
    var prevWasLower := false;
    var i := 0;
    while i < |bytes|
      invariant 0 <= i <= |bytes| && st == ScanFirst(s, i) && Slices(s, tokenStart, i, st)
      invariant st.prevLower == prevWasLower && tokens == Names(st.out)
      invariant prevWasLower ==> tokenStart.Some?
    {
      var ch := bytes[i] as char;
      hide Slices, Names;
      ghost var was := st;
      st := Step(st, s[i]);
      if IsLower(ch) || IsUpper(ch) || IsDigit(ch) {
        if IsUpper(ch) && prevWasLower {
          SliceEnds(s, tokenStart.value, i, was);
          NamesOfSlice(was.out, s, tokenStart.value, i, was.wordPos);
          tokens := AddSlice(tokens, Latin(bytes), tokenStart.value, i);
          tokenStart := Some(i);
          SliceGrows(s, i, i, EndToken(was), LowerChar(ch));
        } else {
          SlicesEmpty(s, tokenStart, i, was);
          tokenStart := if tokenStart.None? then Some(i) else tokenStart;
          SliceGrows(s, tokenStart.value, i, was, LowerChar(ch));
        }
        prevWasLower := IsLower(ch);
      } else {
        SlicesEmpty(s, tokenStart, i, was);
        EmptyEnd(was);
        if tokenStart.Some? {
          SliceEnds(s, tokenStart.value, i, was);
          NamesOfSlice(was.out, s, tokenStart.value, i, was.wordPos);
          tokens := AddSlice(tokens, Latin(bytes), tokenStart.value, i);
        }
        tokenStart := None;
        prevWasLower := false;
      }
      SlicesSame(s, tokenStart, i + 1, st);
      i := i + 1;
    }
    SlicesEmpty(s, tokenStart, |bytes|, st);
    EmptyEnd(st);
    if tokenStart.Some? {
      SliceEnds(s, tokenStart.value, |bytes|, st);
      NamesOfSlice(st.out, s, tokenStart.value, |bytes|, st.wordPos);
      tokens := AddSlice(tokens, Latin(bytes), tokenStart.value, |bytes|);
    }
  }

  function AddSlice(tokens: set<Token>, s: string, a: nat, i: nat): set<Token>
    requires a <= i <= |s|
  {
    if Indexable(i - a) then tokens + {ToLower(s[a..i])} else tokens
  }

  lemma NamesOfSlice(l: seq<Positioned>, s: string, a: nat, i: nat, wordPos: nat)
    requires a <= i <= |s|
    ensures Names(l + SliceToken(s, a, i, wordPos)) == AddSlice(Names(l), s, a, i)
  {
    if Indexable(i - a) {
      NamesSnoc(l, (ToLower(s[a..i]), wordPos));
    } else {
      assert l + [] == l;
    }
  }

  /** Position list with each distinct token named once. */
  ghost predicate Expands(tokens: seq<Token>, positions: seq<(nat, nat)>, l: seq<Positioned>, n: nat)
    requires n <= |l|
  {
    && |positions| == n
    && Distinct(tokens)
    && Elements(tokens) == Names(l[..n])
    && forall i :: 0 <= i < n ==> positions[i].0 < |tokens| && (tokens[positions[i].0], positions[i].1) == l[i]
  }

  method ExtractTokensAndPositions(text: string) returns (tokens: seq<Token>, positions: seq<(nat, nat)>)
    ensures Expands(tokens, positions, Tokens(text), |Tokens(text)|)
  {
    hide Tokens;
    var l := ExtractTokensWithPositions(text);
    var ids: map<Token, nat> := map[];
    tokens, positions := [], [];
    var i := 0;
    while i < |l|
      invariant 0 <= i <= |l| && Expands(tokens, positions, l, i)
      invariant forall t :: t in ids <==> t in tokens
      invariant forall t :: t in ids ==> ids[t] < |tokens| && tokens[ids[t]] == t
    {
      var (t, pos) := l[i];
      assert l[..i + 1] == l[..i] + [l[i]];
      NamesSnoc(l[..i], l[i]);
      hide Names;
      assert Elements(tokens + [t]) == Elements(tokens) + {t};
      var id: nat;
      if t in ids {
        id := ids[t];
        assert t in Elements(tokens);
      } else {
        id := |tokens|;
        tokens := tokens + [t];
        ids := ids[t := id];
      }
      positions := positions + [(id, pos)];
      i := i + 1;
    }
  }
}
