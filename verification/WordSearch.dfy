/**
  What words and phrases find where trigrams are of no use, and under -i
  (src/query/executor.rs:602-650, src/query/planner.rs:318-364).
*/
module WordSearch {
  import opened Prelude
  import opened Text
  import opened Index
  import opened Trigrams
  import opened Tokenizer
  import opened Phrases
  import opened Verify
  import opened QueryTree
  import opened Planner
  import opened Executor
  import opened Search
  import opened Narrowing
  import opened Candidates
  import WordLosses
  import Matches

  // ------------------------------------------------------ words of stop-grams alone

  /**
    Once all trigrams of a word are stop-grams, the files found are those with a
    token that contains it, and those that have all its parts as tokens.
  */
  lemma StoppedWordIff(env: Env, word: string, ci: bool, d: DocId, s: string)
    requires Valid(env.idx) && UpToDate(env, d, s) && OneWord(word) && |Utf8(word)| >= 3
    requires Windows(Utf8(word)) <= env.idx.stopGrams
    ensures d in Simple(env, PlanNode(QueryNode.Literal(word), ci)) <==>
            || (exists t :: t in Names(Tokens(s)) && Contains(t, ToLower(word)))
            || (|Names(Tokens(word))| >= 2 && Names(Tokens(word)) <= Names(Tokens(s)))
  {
    var stop := env.idx.stopGrams;
    assert Windows(Utf8(word)) - stop == {};
    CandidateIff(env, QueryNode.Literal(word), ci, d, s);
    WordOnly(stop, word, ci, s, env.engine);
    hide UpToDate, Valid, Candidate, Simple, PlanNode, Windows, Utf8, Tokens, Names, ToLower, OneWord, HasUsable;
    ContainsItself(ToLower(word));
  }

  lemma ContainsItself(t: string)
    ensures Contains(t, t)
  {
    assert At(t, t, 0);
  }

  lemma WordOnly(stop: set<Trigram>, word: string, ci: bool, s: string, engine: Engine)
    requires OneWord(word) && |Utf8(word)| >= 3
    ensures Candidate(stop, QueryNode.Literal(word), ci, s, engine) <==>
            WordFits(stop, word, Names(Tokens(word)), Utf8(word), s)
  {
    hide OneWord, Utf8, Tokens, Names, WordFits;
  }

  lemma {:induction false} AlnumBytes(word: string)
    requires forall i :: 0 <= i < |word| ==> IsAlnum(word[i])
    ensures |Utf8(word)| == |word|
    decreases |word|
  {
    if word != "" {
      var init, last := word[..|word| - 1], word[|word| - 1];
      assert IsAlnum(last);
      AlnumBytes(init);
    }
  }

  /** A token that contains the word makes the text, lowered, contain it. */
  lemma TokenInText(s: string, t: Token, word: string)
    requires t in Names(Tokens(s)) && Contains(t, ToLower(word))
    ensures Contains(Utf8(ToLower(s)), Utf8(ToLower(word)))
  {
    var l := Tokens(s);
    hide Tokens;
    var i :| 0 <= i < |l| && l[i].0 == t;
    assert (t, l[i].1) in l;
    hide Utf8, ToLower, IsWord, WordIndex, Contains;
    TokensAreWords(s, t, l[i].1);
    var a: nat, b: nat :| WordIs(s, a, b, t, l[i].1);
    WordInLower(s, a, b, ToLower(word));
    BytesContain(ToLower(s), ToLower(word));
  }

  lemma WordInLower(s: string, a: nat, b: nat, w: string)
    requires IsWord(s, a, b) && Contains(ToLower(s[a..b]), w)
    ensures Contains(ToLower(s), w)
  {
    assert a < b <= |s|;
    var low := ToLower(s);
    assert low[a..b] == ToLower(s[a..b]);
    hide IsWord, ToLower;
    var i :| 0 <= i <= b - a && At(low[a..b], w, i);
    assert low[a..b][i..i + |w|] == low[a + i..a + i + |w|];
    assert At(low, w, a + i);
  }

  /**
    So a word of letters and digits that stands inside one indexed token is found
    by a search even where its trigrams are stop-grams.
  */
  lemma StoppedWordFound(env: Env, word: string, ci: bool, d: DocId, s: string, t: Token, p: Path)
    requires Valid(env.idx) && UpToDate(env, d, s) && Executor.PathOf(env, d) == Some(p)
    requires |word| >= 3 && forall i :: 0 <= i < |word| ==> IsAlnum(word[i])
    requires Windows(Utf8(word)) <= env.idx.stopGrams
    requires t in Names(Tokens(s)) && Contains(t, ToLower(word))
    ensures d in Simple(env, PlanNode(QueryNode.Literal(word), ci))
    ensures SearchFinds(env, Query(QueryNode.Literal(word), NO_FILTER, ci), p)
  {
    var q := Query(QueryNode.Literal(word), NO_FILTER, ci);
    hide *;
    AlnumIsWord(word);
    StoppedWordIff(env, word, ci, d, s);
    TokenInText(s, t, word);
    DocumentOf(env, d, s);
    WordWanted(word, s, env.engine);
    PlainQuery(env, word, ci, d, s);
    IsSearched(env, q, d);
    Finding(env, q, d, p);
  }

  lemma Finding(env: Env, q: Query, d: DocId, p: Path)
    requires Searched(env, q, d) && Executor.PathOf(env, d) == Some(p)
    ensures SearchFinds(env, q, p)
  {
    hide Searched, Executor.PathOf;
  }

  lemma AlnumIsWord(word: string)
    requires |word| >= 3 && forall i :: 0 <= i < |word| ==> IsAlnum(word[i])
    ensures OneWord(word) && |Utf8(word)| >= 3 && word != ""
  {
    AlnumBytes(word);
    hide Utf8;
    forall c | c in word
      ensures !IsWhitespace(c)
    {
      var i :| 0 <= i < |word| && word[i] == c;
      assert IsAlnum(word[i]);
    }
  }

  lemma WordWanted(word: string, s: string, engine: Engine)
    requires OneWord(word) && Contains(Utf8(ToLower(s)), Utf8(ToLower(word)))
    ensures HasMatch(Utf8(s), VerificationStep.Literal(word), engine)
  {
    hide *;
    OneWordIs(word);
    WordLosses.WordWantedIff(word, s, engine);
    LiteralWanted(word, s, engine);
  }

  lemma LiteralWanted(word: string, s: string, engine: Engine)
    ensures Wanted(QueryNode.Literal(word), false, Utf8(s), engine) <==>
            HasMatch(Utf8(s), VerificationStep.Literal(word), engine)
  {
    hide HasMatch, Utf8;
  }

  lemma PlainQuery(env: Env, word: string, ci: bool, d: DocId, s: string)
    requires ContentOf(env, d) == Some(Utf8(s)) && word != ""
             && HasMatch(Utf8(s), VerificationStep.Literal(word), env.engine)
    ensures var q := Query(QueryNode.Literal(word), NO_FILTER, ci);
            && Report(env, PlanQuery(q), d).Some?
            && Simple(env, PlanQuery(q)) == Simple(env, PlanNode(QueryNode.Literal(word), ci))
  {
    var q, v := Query(QueryNode.Literal(word), NO_FILTER, ci), VerificationStep.Literal(word);
    var plan := PlanNode(QueryNode.Literal(word), ci);
    assert plan.verification == Some(v);
    assert PlanQuery(q).steps == plan.steps && PlanQuery(q).verification == plan.verification;
    assert PlanQuery(q) == plan;
    FormsAgree(Utf8(s), v, env.engine);
    LinesAskedFor(q);
    hide PlanNode, HasMatch, VerifyMatches, ContentOf, Utf8, LineFilter, Simple;
    var ms, f := VerifyMatches(Utf8(s), v, env.engine), LineFilter(PlanQuery(q).steps);
    assert ms[0] in ms && Matches.InRange(ms[0].line, f);
    InRetained(ms, f, ms[0]);
  }

  // ---------------------------------------------------------------- phrases under -i

  /** Under -i a phrase narrows by its words: one by its token or trigrams, several by their positions. */
  lemma FoldedPhraseIff(env: Env, text: string, d: DocId, s: string)
    requires Valid(env.idx) && UpToDate(env, d, s)
    ensures d in Simple(env, PlanNode(QueryNode.Phrase(text), true)) <==>
            && (|Tokens(text)| >= 2 ==> StandsIn(Tokens(s), Tokens(text)))
            && (|Tokens(text)| == 1 ==> OneTokenFits(env.idx.stopGrams, Tokens(text)[0].0, text, s))
  {
    CandidateIff(env, QueryNode.Phrase(text), true, d, s);
    hide UpToDate, Valid, Simple, PlanNode, Tokens, StandsIn, OneTokenFits, HasUsable, Windows, Utf8;
  }

  /** A phrase of one word that occurs as written is a candidate under -i whenever one of its trigrams is usable. */
  lemma FoldedWordKept(env: Env, text: string, d: DocId, s: string)
    requires Valid(env.idx) && UpToDate(env, d, s) && |Tokens(text)| == 1
    requires Contains(Utf8(s), Utf8(text)) && !(Windows(Utf8(text)) <= env.idx.stopGrams)
    ensures d in Simple(env, PlanNode(QueryNode.Phrase(text), true))
  {
    hide *;
    if |Utf8(text)| < 3 {
      ShortWindows(Utf8(text));
    }
    NeedleTrigrams(Utf8(s), Utf8(text));
    UsableFits(env.idx.stopGrams, Tokens(text)[0].0, text, s);
    FoldedPhraseIff(env, text, d, s);
  }

  lemma UsableFits(stop: set<Trigram>, token: Token, text: string, s: string)
    requires |Utf8(text)| >= 3 && Windows(Utf8(text)) <= Windows(Utf8(s)) && !(Windows(Utf8(text)) <= stop)
    ensures OneTokenFits(stop, token, text, s)
  {
    hide Windows, Utf8, HasToken, Names, Tokens, Contains;
    var t :| t in Windows(Utf8(text)) && t !in stop;
    assert t in Windows(Utf8(text)) - stop;
  }
}
