/**
  Bare words (src/query/planner.rs:155-193, src/query/executor.rs:602-650): what a
  literal matches, and which single words narrowing never loses a file for. The
  index is looked up by whole lowered tokens and by trigrams in the case written,
  while a file matches in any case and inside longer words.
*/
module WordLosses {
  import opened Prelude
  import opened Text
  import opened Index
  import opened Trigrams
  import opened Reader
  import opened Tokenizer
  import opened Phrases
  import opened Scanner
  import opened Verify
  import opened QueryTree
  import opened Planner
  import opened Executor
  import opened Search
  import opened Narrowing
  import opened Losses

  // ------------------------------------------------------- what a literal matches

  lemma NoneLocated(ms: seq<Match>)
    ensures Located(ms) == [] <==> ms == []
  {
  }

  lemma NonePlaced(hits: seq<Hit>)
    ensures Scanner.Places(hits) == [] <==> hits == []
  {
  }

  /** A literal matches a content exactly when it occurs in it, both lowered. */
  lemma LiteralMeans(content: seq<Byte>, needle: seq<Byte>)
    requires OneLine(needle)
    ensures HasLiteral(content, needle) <==> Contains(LowerBytes(content), LowerBytes(needle))
  {
    var low, n := LowerBytes(content), LowerBytes(needle);
    assert needle != [];
    assert Lines(content) == LinesFrom(content, 0);
    assert Fold(true, needle) == n;
    assert Hits(low, n) == HitsFrom(low, n, 0, 1);
    hide *;
    LiteralAgrees(content, needle);
    LiteralReport(content, needle, false);
    NoneLocated(LiteralMatches(content, needle, false));
    LowerOneLine(needle);
    LowerLines(content, 0);
    HitsAreSearch(low, n, 0, 1);
    NonePlaced(Hits(low, n));
    HitsIffContains(low, n);
  }

  lemma LowerSplit(a: seq<Byte>, b: seq<Byte>)
    ensures LowerBytes(a + b) == LowerBytes(a) + LowerBytes(b)
  {
  }

  lemma LowerOfChar(c: char)
    ensures LowerBytes(Utf8Char(c)) == Utf8Char(LowerChar(c))
  {
    if c as int >= 0x80 {
      hide Utf8Char;
      assert LowerBytes(Utf8Char(c)) == Utf8Char(c);
    }
  }

  /** Lowering the characters is lowering the bytes. */
  lemma {:induction false} LowerIsBytes(s: string)
    ensures LowerBytes(Utf8(s)) == Utf8(ToLower(s))
    decreases |s|
  {
    hide Utf8Char, LowerBytes, LowerChar;
    if s == "" {
      assert LowerBytes([]) == [];
    } else {
      var init, last := s[..|s| - 1], s[|s| - 1];
      LowerIsBytes(init);
      LowerOfChar(last);
      LowerSplit(Utf8(init), Utf8Char(last));
      assert ToLower(s)[..|s| - 1] == ToLower(init);
    }
  }

  /** The bytes of a text without white space are one line. */
  lemma {:induction false} BytesOfWord(text: string)
    requires forall i :: 0 <= i < |text| ==> !IsWhitespace(text[i])
    ensures forall i :: 0 <= i < |Utf8(text)| ==> Utf8(text)[i] != LF && Utf8(text)[i] != CR
    decreases |text|
  {
    if text != "" {
      var init, last := text[..|text| - 1], text[|text| - 1];
      BytesOfWord(init);
      assert !IsWhitespace(last);
      assert forall i :: 0 <= i < |Utf8Char(last)| ==> Utf8Char(last)[i] != LF && Utf8Char(last)[i] != CR by {
        CharIsNoBreak(last);
      }
      hide Utf8Char;
    }
  }

  lemma CharIsNoBreak(c: char)
    requires !IsWhitespace(c)
    ensures forall i :: 0 <= i < |Utf8Char(c)| ==> Utf8Char(c)[i] != LF && Utf8Char(c)[i] != CR
  {
    if c as int < 0x80 {
      assert Utf8Char(c) == [c as int];
    } else {
      hide Utf8Char;
    }
  }

  lemma WordIsOneLine(text: string)
    requires IsSingleWord(text)
    ensures OneLine(Utf8(text))
  {
    BytesOfWord(text);
    hide Utf8;
  }

  /** A text is wanted for a word exactly when the word occurs in it, both lowered. */
  lemma WordWantedIff(text: string, s: string, engine: Engine)
    requires IsSingleWord(text)
    ensures Wanted(QueryNode.Literal(text), false, Utf8(s), engine) <==> Contains(Utf8(ToLower(s)), Utf8(ToLower(text)))
  {
    WordIsOneLine(text);
    LiteralMeans(Utf8(s), Utf8(text));
    LowerIsBytes(s);
    LowerIsBytes(text);
    hide Utf8, HasLiteral, ToLower, LowerBytes;
  }

  // --------------------------------------------------------- words without letters

  predicate IsLetter(c: char) {
    IsUpper(c) || IsLower(c)
  }

  /** Letters whose case can differ. */
  predicate HasLetter(text: string) {
    exists i :: 0 <= i < |text| && IsLetter(text[i])
  }

  lemma LoweredOnly(s: string, text: string, o: nat)
    requires !HasLetter(text) && At(ToLower(s), ToLower(text), o)
    ensures At(s, text, o)
  {
    assert o + |text| <= |s|;
    forall i | 0 <= i < |text|
      ensures s[o + i] == text[i]
    {
      assert !IsLetter(text[i]);
      assert ToLower(s)[o..o + |text|][i] == ToLower(text)[i];
      assert LowerChar(s[o + i]) == LowerChar(text[i]);
    }
    assert s[o..o + |text|] == text;
  }

  /** A word without letters occurs wherever it matches. */
  lemma MatchedIsThere(s: string, text: string)
    requires text != "" && !HasLetter(text) && Contains(Utf8(ToLower(s)), Utf8(ToLower(text)))
    ensures Contains(Utf8(s), Utf8(text))
  {
    assert ToLower(text) != "";
    var o := CharsContain(ToLower(s), ToLower(text));
    LoweredOnly(s, text, o);
    hide Utf8, ToLower, HasLetter;
    assert Contains(s, text);
    BytesContain(s, text);
  }

  /** Whatever up-to-date index without stop-grams is searched, every valid document the tree wants is a candidate. */
  ghost predicate NeverLosesUnstopped(node: QueryNode) {
    forall env: Env, d: DocId, s: string ::
      Valid(env.idx) && env.idx.stopGrams == {} && UpToDate(env, d, s) && Wanted(node, false, Utf8(s), env.engine) ==>
        d in Simple(env, PlanNode(node, false))
  }

  lemma {:induction false} NoneStopped(idx: Index, ts: seq<Trigram>)
    requires idx.stopGrams == {}
    ensures NonStop(idx, ts) == ts
    decreases |ts|
  {
    if ts != [] {
      NoneStopped(idx, ts[..|ts| - 1]);
    }
  }

  /** The step a single word is planned as. */
  lemma WordPlan(text: string)
    requires IsSingleWord(text)
    ensures var ts := QueryTrigrams(Utf8(text));
            && (ts == [] <==> |Utf8(text)| < 3) && Elements(ts) == Windows(Utf8(text))
            && PlanNode(QueryNode.Literal(text), false).steps ==
               [if ts != [] then TokenOrTrigram(ToLower(text), Names(Tokens(text)), ts) else TokenLookup(ToLower(text))]
  {
    hide IsSingleWord, Utf8, ToLower, Tokens, Names, Windows, LookupsOf;
  }

  /** A document is a candidate for a word exactly when it has it as a token, or all its trigrams as written. */
  lemma WordCandidateIff(env: Env, text: string, d: DocId, s: string)
    requires Valid(env.idx) && env.idx.stopGrams == {} && UpToDate(env, d, s) && IsSingleWord(text)
    ensures d in Simple(env, PlanNode(QueryNode.Literal(text), false)) <==>
            || ToLower(text) in Names(Tokens(s))
            || (|Utf8(text)| >= 3 && Windows(Utf8(text)) <= TrigramsOf(env.idx, GetDocument(env.idx, d).value))
  {
    var plan, ts := PlanNode(QueryNode.Literal(text), false), QueryTrigrams(Utf8(text));
    assert UpToDate(env, d, s) ==> d in ValidIds(env.idx);
    hide *;
    WordPlan(text);
    LowerTwice(text);
    NoneStopped(env.idx, ts);
    if ts != [] {
      WordLetsIff(env, ToLower(text), Names(Tokens(text)), ts, d, s);
      OneStepDecides(env, plan, TokenOrTrigram(ToLower(text), Names(Tokens(text)), ts), d);
    } else {
      TokenLetsIff(env, ToLower(text), d, s);
      OneStepDecides(env, plan, TokenLookup(ToLower(text)), d);
    }
  }

  lemma TokenLetsIff(env: Env, token: Token, d: DocId, s: string)
    requires Valid(env.idx) && UpToDate(env, d, s)
    ensures Lets(env, TokenLookup(token), d) <==> ToLower(token) in Names(Tokens(s))
  {
    hide Valid, GetDocument, ContentOf, ValidIds, Tokens, Windows, TokenDocs, TrigramsOf, ToLower, Names;
    TokenDocsExact(env.idx, token, d);
  }

  lemma OneStepDecides(env: Env, plan: QueryPlan, step: PlanStep, d: DocId)
    requires plan.steps == [step] && (step.TokenOrTrigram? || step.TokenLookup?) && d in ValidIds(env.idx)
    ensures d in Simple(env, plan) <==> Lets(env, step, d)
  {
    hide ValidIds, WordDocs, TokenDocs;
    if Lets(env, step, d) {
      OneStep(env, step, d);
      KeptIfLet(env, plan, d);
    } else {
      OnlyStep(env, plan, step, d);
    }
  }

  // ---------------------------------------------------------------- a file it loses

  function UpperChar(c: char): char {
    if IsLower(c) then (c as int - 32) as char else c
  }

  predicate HasLower(text: string) {
    exists i :: 0 <= i < |text| && IsLower(text[i])
  }

  /** The text with its letters all in one case, which is not that of all of them. */
  function Flipped(text: string): (r: string)
    ensures |r| == |text|
  {
    if HasLower(text) then seq(|text|, i requires 0 <= i < |text| => UpperChar(text[i])) else ToLower(text)
  }

  /** It stands inside a longer word. */
  function Hidden(text: string): string {
    "0" + (Flipped(text) + "0")
  }

  lemma FlippedLowers(text: string)
    ensures ToLower(Flipped(text)) == ToLower(text)
  {
  }

  lemma HiddenLowers(text: string)
    ensures ToLower(Hidden(text)) == "0" + (ToLower(text) + "0")
  {
    FlippedLowers(text);
    assert ToLower("0") == "0";
    assert ToLower(Hidden(text)) == ToLower("0") + (ToLower(Flipped(text)) + ToLower("0"));
  }

  lemma HiddenWanted(text: string, engine: Engine)
    requires IsSingleWord(text)
    ensures Wanted(QueryNode.Literal(text), false, Utf8(Hidden(text)), engine)
  {
    hide *;
    HiddenLowers(text);
    FoundWithin("0", ToLower(text), "0", engine);
    WordWantedIff(text, Hidden(text), engine);
  }

  /** The word is no token of the file: it is part of a longer one, or has a character no token has. */
  lemma HiddenIsNoToken(text: string)
    ensures ToLower(text) !in Names(Tokens(Hidden(text)))
  {
    var l := Tokens(Hidden(text));
    forall i | 0 <= i < |l|
      ensures l[i].0 != ToLower(text)
    {
      var (t, k) := l[i];
      assert (t, k) in l;
      hide *;
      TokensAreWords(Hidden(text), t, k);
      var a: nat, b: nat :| WordIs(Hidden(text), a, b, t, k);
      WordOfHidden(text, a, b, t, k);
    }
  }

  lemma WordOfHidden(text: string, a: nat, b: nat, t: Token, k: nat)
    requires WordIs(Hidden(text), a, b, t, k)
    ensures t != ToLower(text)
  {
    WordParts(Hidden(text), a, b, t, k);
    hide WordIs;
    if forall i :: 0 <= i < |text| ==> IsAlnum(text[i]) {
      AllJoined(text, a, b);
      assert |t| == |text| + 2;
    } else {
      var i :| 0 <= i < |text| && !IsAlnum(text[i]);
      assert !IsAlnum(ToLower(text)[i]);
      AlnumWord(Hidden(text), a, b);
      assert forall j :: 0 <= j < |t| ==> IsAlnum(t[j]);
    }
  }

  lemma AlnumWord(s: string, a: nat, b: nat)
    requires IsWord(s, a, b)
    ensures a < b <= |s| && forall j :: 0 <= j < b - a ==> IsAlnum(ToLower(s[a..b])[j])
  {
    forall j | 0 <= j < b - a
      ensures IsAlnum(ToLower(s[a..b])[j])
    {
      assert IsAlnum(s[a + j]);
    }
  }

  /** A text of letters and digits is one word with the zeros around it. */
  lemma AllJoined(text: string, a: nat, b: nat)
    requires (forall i :: 0 <= i < |text| ==> IsAlnum(text[i])) && IsWord(Hidden(text), a, b)
    ensures a == 0 && b == |text| + 2
  {
    NoCuts(text);
    assert |Hidden(text)| == |text| + 2;
    hide Hidden, Cut;
  }

  /** In an alphanumeric text all in one case there is no cut. */
  lemma NoCuts(text: string)
    requires forall i :: 0 <= i < |text| ==> IsAlnum(text[i])
    ensures forall i :: 0 < i < |Hidden(text)| ==> !Cut(Hidden(text), i)
  {
    var s, mid := Hidden(text), Flipped(text);
    OneCase(text);
    forall i | 0 <= i < |s|
      ensures IsAlnum(s[i]) && !(HasLower(text) && IsLower(s[i])) && !(!HasLower(text) && IsUpper(s[i]))
    {
      if 0 < i < |s| - 1 {
        assert s[i] == mid[i - 1];
      }
    }
  }

  lemma OneCase(text: string)
    ensures forall i :: 0 <= i < |text| ==>
            if HasLower(text) then !IsLower(Flipped(text)[i]) else !IsUpper(Flipped(text)[i])
  {
  }

  // ------------------------------------------------------ trigrams in another case

  /** The bytes of a text have a letter's byte exactly when the text has the letter. */
  lemma {:induction false} LetterByte(s: string, c: char)
    requires c as int < 0x80
    ensures c as int in Utf8(s) <==> c in s
    decreases |s|
  {
    if s != "" {
      var init, last := s[..|s| - 1], s[|s| - 1];
      assert s == init + [last];
      LetterByte(init, c);
      assert c as int in Utf8Char(last) <==> c == last by {
        if last as int >= 0x80 { hide Utf8Char; }
      }
      hide Utf8Char;
    }
  }

  lemma SameTrigramBytes(a: seq<Byte>, i: nat, b: seq<Byte>, j: nat)
    requires i + 3 <= |a| && j + 3 <= |b|
    ensures TrigramAt(a, i) == TrigramAt(b, j) ==> a[i] == b[j] && a[i + 1] == b[j + 1] && a[i + 2] == b[j + 2]
  {
  }

  /** A byte of the one that the other does not have is in a trigram the other does not have. */
  lemma ByteInTrigram(needle: seq<Byte>, hay: seq<Byte>, x: Byte)
    requires |needle| >= 3 && x in needle && x !in hay
    ensures !(Windows(needle) <= Windows(hay))
  {
    var p :| 0 <= p < |needle| && needle[p] == x;
    var i := if p + 3 <= |needle| then p else |needle| - 3;
    var t := TrigramAt(needle, i);
    InWindows(needle, WindowCount(needle), t);
    InWindows(hay, WindowCount(hay), t);
    hide WindowsBefore, TrigramAt;
    forall j | 0 <= j < WindowCount(hay)
      ensures TrigramAt(hay, j) != t
    {
      SameTrigramBytes(needle, i, hay, j);
      assert forall k :: 0 <= k < |hay| ==> hay[k] != x;
    }
    assert t in Windows(needle);
  }

  /** The letter that shows the difference. */
  lemma LetterGone(text: string) returns (c: char)
    requires HasLetter(text)
    ensures c as int < 0x80 && c in text && c !in Hidden(text)
  {
    OneCase(text);
    var i :| 0 <= i < |text| && IsLetter(text[i]);
    if HasLower(text) {
      i :| 0 <= i < |text| && IsLower(text[i]);
    }
    c := text[i];
    var s := Hidden(text);
    forall k | 0 <= k < |s|
      ensures s[k] != c
    {
      if 0 < k < |s| - 1 {
        assert s[k] == Flipped(text)[k - 1];
      }
    }
  }

  lemma OtherTrigrams(text: string)
    requires |Utf8(text)| >= 3 && HasLetter(text)
    ensures !(Windows(Utf8(text)) <= Windows(Utf8(Hidden(text))))
  {
    hide *;
    var c := LetterGone(text);
    LetterByte(text, c);
    LetterByte(Hidden(text), c);
    ByteInTrigram(Utf8(text), Utf8(Hidden(text)), c as int);
  }

  /** The file that has the word inside a longer one, and its letters in the other case, is wanted and lost. */
  lemma HiddenLost(text: string, f: ProcessedFile, engine: Engine) returns (d: DocId)
    requires IsSingleWord(text) && (|Utf8(text)| < 3 || HasLetter(text)) && Extracts(f, Hidden(text))
    ensures var env := EnvOn(OneFile(f), f.relPath, Hidden(text), engine);
            && Valid(env.idx) && env.idx.stopGrams == {} && UpToDate(env, d, Hidden(text)) && env.engine == engine
            && Wanted(QueryNode.Literal(text), false, Utf8(Hidden(text)), engine)
            && d !in Simple(env, PlanNode(QueryNode.Literal(text), false))
  {
    var s := Hidden(text);
    var env := EnvOn(OneFile(f), f.relPath, s, engine);
    assert env.engine == engine;
    assert text != "" by { NotEmptyWord(text); }
    hide *;
    ExtractedFrom(f, s);
    d := OneFileUpToDate(f, s, engine);
    HiddenWanted(text, engine);
    HiddenIsNoToken(text);
    if |Utf8(text)| >= 3 {
      OtherTrigrams(text);
    }
    WordCandidateIff(env, text, d, s);
  }

  lemma NotEmptyWord(text: string)
    requires IsSingleWord(text)
    ensures text != ""
  {
  }

  /**
    On indexes without stop-grams a single word never loses a file if and only
    if it is no shorter than a trigram and has no letter.
  */
  lemma WordNeverLosesIff(text: string, engine: Engine)
    requires IsSingleWord(text)
    ensures NeverLosesUnstopped(QueryNode.Literal(text)) <==> |Utf8(text)| >= 3 && !HasLetter(text)
  {
    NotEmptyWord(text);
    hide Utf8, PlanNode, Simple, Valid, UpToDate, Wanted, HasLetter, IsSingleWord, Hidden;
    if |Utf8(text)| < 3 || HasLetter(text) {
      var f := SomeExtraction("a", Hidden(text));
      ExtractedFrom(f, Hidden(text));
      var d := HiddenLost(text, f, engine);
      var env := EnvOn(OneFile(f), f.relPath, Hidden(text), engine);
      hide OneFile, EnvOn;
      assert !NeverLosesUnstopped(QueryNode.Literal(text));
    } else {
      forall env: Env, d: DocId, s: string |
        && Valid(env.idx) && env.idx.stopGrams == {} && UpToDate(env, d, s)
        && Wanted(QueryNode.Literal(text), false, Utf8(s), env.engine)
        ensures d in Simple(env, PlanNode(QueryNode.Literal(text), false))
      {
        PlainWordKept(env, text, d, s);
      }
    }
  }

  lemma PlainWordKept(env: Env, text: string, d: DocId, s: string)
    requires Valid(env.idx) && env.idx.stopGrams == {} && UpToDate(env, d, s) && IsSingleWord(text)
    requires |Utf8(text)| >= 3 && !HasLetter(text) && Wanted(QueryNode.Literal(text), false, Utf8(s), env.engine)
    ensures d in Simple(env, PlanNode(QueryNode.Literal(text), false))
  {
    assert Windows(Utf8(s)) <= TrigramsOf(env.idx, GetDocument(env.idx, d).value);
    hide *;
    NotEmptyWord(text);
    WordWantedIff(text, s, env.engine);
    MatchedIsThere(s, text);
    NeedleTrigrams(Utf8(s), Utf8(text));
    WordCandidateIff(env, text, d, s);
  }
}
