/**
  Which files a query narrows to (src/query/planner.rs:151-461,
  src/query/executor.rs:565-742), told by the text of the file, the stop-grams
  and the query tree alone: for every tree, with and without -i.
*/
module Candidates {
  import opened Prelude
  import opened Text
  import opened Index
  import opened Trigrams
  import opened Reader
  import opened Tokenizer
  import opened Phrases
  import opened Verify
  import opened QueryTree
  import opened Planner
  import opened Executor
  import opened Search
  import opened Narrowing
  import RegexPrefix
  import Losses
  import Matches

  // ------------------------------------------------------------------- the words

  /** A stretch of a text between white space. */
  ghost predicate IsChunk(text: string, a: nat, b: nat) {
    && a < b <= |text|
    && (forall i :: a <= i < b ==> !IsWhitespace(text[i]))
    && (a == 0 || IsWhitespace(text[a - 1])) && (b == |text| || IsWhitespace(text[b]))
  }

  /** No white space, and two bytes at least. */
  predicate OneWord(text: string) {
    (forall c :: c in text ==> !IsWhitespace(c)) && |Utf8(text)| >= 2
  }

  predicate HasToken(s: string, word: string) {
    ToLower(word) in Names(Tokens(s))
  }

  /** All trigrams of the bytes that are no stop-grams are in the text. */
  predicate HasUsable(stop: set<Trigram>, grams: set<Trigram>, s: string) {
    grams - stop <= Windows(Utf8(s))
  }

  /**
    A word is looked up as a token, and by the usable trigrams of the bytes as
    written; without any, in the tokens that contain it, or by its parts.
  */
  ghost predicate WordFits(stop: set<Trigram>, word: string, parts: set<Token>, bytes: seq<Byte>, s: string) {
    || HasToken(s, word)
    || (Windows(bytes) - stop != {} && HasUsable(stop, Windows(bytes), s))
    || (Windows(bytes) - stop == {} && exists t :: t in Names(Tokens(s)) && Contains(t, ToLower(word)))
    || (Windows(bytes) - stop == {} && |parts| >= 2 && parts <= Names(Tokens(s)))
  }

  /** The words of two bytes and more of a text. */
  ghost predicate LongChunk(text: string, w: string) {
    |Utf8(w)| >= 2 && exists a: nat, b: nat :: IsChunk(text, a, b) && text[a..b] == w
  }

  // ------------------------------------------------------------------- the leaves

  function GramsOf(terms: seq<string>): set<Trigram> {
    set k, t | 0 <= k < |terms| && t in Windows(Utf8(terms[k])) :: t
  }

  /** Whether a leaf plans any step. */
  ghost predicate LeafSteps(node: QueryNode, ci: bool) {
    match node
    case Literal(text) => TextSteps(text, ci)
    case BoostedLiteral(text, _) => TextSteps(text, ci)
    case Near(terms, _) => (!ci && GramsOf(terms) != {}) || exists k :: 0 <= k < |terms| && |Utf8(terms[k])| >= 2
    case Phrase(text) => if ci then Tokens(text) != [] else |Utf8(text)| >= 3
    case Regex(pattern) =>
      !ci && RegexPrefix.ExtractPrefix(pattern).Some? && |Utf8(RegexPrefix.ExtractPrefix(pattern).value)| >= 3
    case _ => false
  }

  ghost predicate TextSteps(text: string, ci: bool) {
    OneWord(text) || (!ci && |Utf8(text)| >= 3) || exists w :: LongChunk(text, w)
  }

  /** Whether it narrows at all, given the stop-grams. */
  ghost predicate LeafNarrows(stop: set<Trigram>, node: QueryNode, ci: bool) {
    match node
    case Literal(text) => TextNarrows(stop, text, ci)
    case BoostedLiteral(text, _) => TextNarrows(stop, text, ci)
    case Near(terms, _) =>
      if !ci && GramsOf(terms) != {} then GramsOf(terms) - stop != {}
      else exists k :: 0 <= k < |terms| && |Utf8(terms[k])| >= 2
    case Phrase(text) =>
      if ci then Tokens(text) != [] else Windows(Utf8(text)) - stop != {} || |Tokens(text)| >= 2
    case Regex(pattern) =>
      && LeafSteps(node, ci)
      && Windows(Utf8(RegexPrefix.ExtractPrefix(pattern).value)) - stop != {}
    case _ => false
  }

  ghost predicate TextNarrows(stop: set<Trigram>, text: string, ci: bool) {
    if OneWord(text) then true
    else if !ci && |Utf8(text)| >= 3 then Windows(Utf8(text)) - stop != {}
    else exists w :: LongChunk(text, w)
  }

  /** Whether a text passes what a leaf narrows by. */
  ghost predicate LeafFits(stop: set<Trigram>, node: QueryNode, ci: bool, s: string) {
    match node
    case Literal(text) => TextFits(stop, text, ci, s)
    case BoostedLiteral(text, _) => TextFits(stop, text, ci, s)
    case Near(terms, _) =>
      if !ci && GramsOf(terms) != {} then HasUsable(stop, GramsOf(terms), s)
      else forall k :: 0 <= k < |terms| && |Utf8(terms[k])| >= 2 ==> HasToken(s, terms[k])
    case Phrase(text) =>
      if |Tokens(text)| >= 2 then
        (!ci ==> HasUsable(stop, Windows(Utf8(text)), s)) && StandsIn(Tokens(s), Tokens(text))
      else if !ci then HasUsable(stop, Windows(Utf8(text)), s)
      else Tokens(text) == [] || OneTokenFits(stop, Tokens(text)[0].0, text, s)
    case Regex(pattern) =>
      LeafSteps(node, ci) ==> HasUsable(stop, Windows(Utf8(RegexPrefix.ExtractPrefix(pattern).value)), s)
    case _ => true
  }

  ghost predicate OneTokenFits(stop: set<Trigram>, token: Token, text: string, s: string) {
    if |Utf8(text)| >= 3 then WordFits(stop, token, {token}, Utf8(text), s) else HasToken(s, token)
  }

  ghost predicate TextFits(stop: set<Trigram>, text: string, ci: bool, s: string) {
    if OneWord(text) then
      if |Utf8(text)| >= 3 then WordFits(stop, text, Names(Tokens(text)), Utf8(text), s) else HasToken(s, text)
    else if !ci && |Utf8(text)| >= 3 then HasUsable(stop, Windows(Utf8(text)), s)
    else forall w :: LongChunk(text, w) ==> HasToken(s, w)
  }

  // -------------------------------------------------------------------- the trees

  ghost predicate HasSteps(node: QueryNode, ci: bool)
  {
    match node
    case And(nodes) => exists k :: 0 <= k < |nodes| && HasSteps(nodes[k], ci)
    case Or(nodes) => exists k :: 0 <= k < |nodes| && HasSteps(nodes[k], ci)
    case Not(_) => true
    case _ => LeafSteps(node, ci)
  }

  ghost predicate Narrows(stop: set<Trigram>, node: QueryNode, ci: bool)
  {
    match node
    case And(nodes) => exists k :: 0 <= k < |nodes| && Narrows(stop, nodes[k], ci)
    case Or(nodes) => exists k :: 0 <= k < |nodes| && HasSteps(nodes[k], ci)
    case Not(_) => false
    case _ => LeafNarrows(stop, node, ci)
  }

  /** Whether a text passes what a tree narrows by: all of an And, a branch with steps of an Or. */
  ghost predicate Fits(stop: set<Trigram>, node: QueryNode, ci: bool, s: string, engine: Engine)
    decreases node, 0
  {
    match node
    case And(nodes) => forall k :: 0 <= k < |nodes| ==> Fits(stop, nodes[k], ci, s, engine)
    case Or(nodes) =>
      || (forall k :: 0 <= k < |nodes| ==> !HasSteps(nodes[k], ci))
      || exists k :: 0 <= k < |nodes| && HasSteps(nodes[k], ci) && Candidate(stop, nodes[k], ci, s, engine)
    case Not(_) => true
    case _ => LeafFits(stop, node, ci, s)
  }

  /** Whether a negation takes the text away: it is a candidate of what is negated, and confirmed by its content. */
  ghost predicate Barred(stop: set<Trigram>, node: QueryNode, ci: bool, s: string, engine: Engine)
    decreases node, 0
  {
    match node
    case And(nodes) => exists k :: 0 <= k < |nodes| && Barred(stop, nodes[k], ci, s, engine)
    case Not(inner) =>
      Candidate(stop, inner, ci, s, engine) && (Says(inner) ==> Wanted(inner, ci, Utf8(s), engine))
    case _ => false
  }

  /** Negations count only where something narrows. */
  ghost predicate Candidate(stop: set<Trigram>, node: QueryNode, ci: bool, s: string, engine: Engine)
    decreases node, 1
  {
    Narrows(stop, node, ci) ==> Fits(stop, node, ci, s, engine) && !Barred(stop, node, ci, s, engine)
  }

  // -------------------------------------------------------- what the steps amount to

  ghost predicate StepsNarrow(env: Env, steps: seq<PlanStep>) {
    exists k :: 0 <= k < |steps| && StepDocs(env, steps[k]).Some?
  }

  ghost predicate StepsFit(env: Env, steps: seq<PlanStep>, d: DocId) {
    forall k :: 0 <= k < |steps| && StepDocs(env, steps[k]).Some? ==> d in StepDocs(env, steps[k]).value
  }

  ghost predicate StepsBar(env: Env, steps: seq<PlanStep>, d: DocId) {
    exists k :: 0 <= k < |steps| && steps[k].Exclude? && d in Excluded(env, steps[k].plan)
  }

  lemma {:induction false} AllowedIs(env: Env, plan: QueryPlan, n: nat, d: DocId)
    requires n <= |plan.steps|
    ensures Allowed(env, plan, n).Some? <==> StepsNarrow(env, plan.steps[..n])
    ensures Allowed(env, plan, n).Some? ==> (d in Allowed(env, plan, n).value <==> StepsFit(env, plan.steps[..n], d))
    decreases n
  {
    hide StepDocs;
    if n > 0 {
      AllowedIs(env, plan, n - 1, d);
      var before, all := plan.steps[..n - 1], plan.steps[..n];
      assert all == before + [plan.steps[n - 1]];
      assert forall k :: 0 <= k < n - 1 ==> all[k] == before[k];
    }
  }

  /** A valid document is a candidate of a plan by its steps. */
  lemma SimpleIs(env: Env, plan: QueryPlan, d: DocId)
    requires d in ValidIds(env.idx)
    ensures d in Simple(env, plan) <==>
            (StepsNarrow(env, plan.steps) ==> StepsFit(env, plan.steps, d) && !StepsBar(env, plan.steps, d))
  {
    AllowedIs(env, plan, |plan.steps|, d);
    assert plan.steps[..|plan.steps|] == plan.steps;
    hide StepDocs, ValidIds, Allowed, Excluded;
  }

  lemma StepsConcat(env: Env, a: seq<PlanStep>, b: seq<PlanStep>, d: DocId)
    ensures StepsNarrow(env, a + b) <==> StepsNarrow(env, a) || StepsNarrow(env, b)
    ensures StepsFit(env, a + b, d) <==> StepsFit(env, a, d) && StepsFit(env, b, d)
    ensures StepsBar(env, a + b, d) <==> StepsBar(env, a, d) || StepsBar(env, b, d)
  {
    hide StepDocs, Excluded;
    var c := a + b;
    assert forall k :: 0 <= k < |a| ==> c[k] == a[k];
    assert forall k :: 0 <= k < |b| ==> c[|a| + k] == b[k];
    forall k | 0 <= k < |c|
      ensures (k < |a| && c[k] == a[k]) || (k >= |a| && c[k] == b[k - |a|])
    {
    }
  }

  lemma NoSteps(env: Env, d: DocId)
    ensures !StepsNarrow(env, []) && StepsFit(env, [], d) && !StepsBar(env, [], d)
  {
  }

  /** One step that is no exclusion. */
  lemma SingleStep(env: Env, step: PlanStep, d: DocId)
    requires !step.Exclude?
    ensures StepsNarrow(env, [step]) <==> StepDocs(env, step).Some?
    ensures StepsFit(env, [step], d) <==> Lets(env, step, d)
    ensures !StepsBar(env, [step], d)
  {
    hide StepDocs, Excluded;
    assert [step][0] == step;
  }

  /** What the steps of a node come to, against what the tree says. */
  ghost predicate Agrees(env: Env, node: QueryNode, ci: bool, d: DocId, s: string) {
    var steps, stop := PlanNode(node, ci).steps, env.idx.stopGrams;
    && (steps != [] <==> HasSteps(node, ci))
    && (StepsNarrow(env, steps) <==> Narrows(stop, node, ci))
    && (StepsFit(env, steps, d) <==> Fits(stop, node, ci, s, env.engine))
    && (StepsBar(env, steps, d) <==> Barred(stop, node, ci, s, env.engine))
  }

  // ------------------------------------------------------------------ single steps

  /** An up-to-date document, as the lookups see it. */
  lemma DocumentOf(env: Env, d: DocId, s: string)
    requires UpToDate(env, d, s)
    ensures d in ValidIds(env.idx) && ContentOf(env, d) == Some(Utf8(s)) && GetDocument(env.idx, d).Some?
    ensures var doc := GetDocument(env.idx, d).value;
            && doc.segmentId in Active(env.idx) && TokensOf(env.idx, doc) == Names(Tokens(s))
            && Windows(Utf8(s)) - env.idx.stopGrams <= TrigramsOf(env.idx, doc) <= Windows(Utf8(s))
  {
    hide TokensOf, Names, Tokens, Windows, TrigramsOf, Utf8, ContentOf, GetDocument, ValidIds, Recall;
  }

  lemma NonStopElements(idx: Index, ts: seq<Trigram>)
    ensures Elements(NonStop(idx, ts)) == Elements(ts) - idx.stopGrams
    ensures NonStop(idx, ts) == [] <==> Elements(ts) - idx.stopGrams == {}
  {
    var r := NonStop(idx, ts);
    hide NonStop;
    if r != [] {
      assert r[0] in Elements(r);
    }
  }

  lemma TrigramStep(env: Env, ts: seq<Trigram>, grams: set<Trigram>, d: DocId, s: string)
    requires Valid(env.idx) && UpToDate(env, d, s) && Elements(ts) == grams
    ensures StepDocs(env, TrigramIntersect(ts)).Some? <==> grams - env.idx.stopGrams != {}
    ensures Lets(env, TrigramIntersect(ts), d) <==> HasUsable(env.idx.stopGrams, grams, s)
  {
    var usable := NonStop(env.idx, ts);
    hide UpToDate, Valid, Windows, Utf8, TrigramDocs, GetDocument, ContentOf, ValidIds, TrigramsOf, Tokens, NonStop,
        Elements;
    DocumentOf(env, d, s);
    NonStopElements(env.idx, ts);
    if usable != [] {
      TrigramDocsExact(env.idx, usable, d);
    }
  }

  lemma TokenStep(env: Env, word: string, d: DocId, s: string)
    requires Valid(env.idx) && UpToDate(env, d, s)
    ensures StepDocs(env, TokenLookup(ToLower(word))).Some?
    ensures Lets(env, TokenLookup(ToLower(word)), d) <==> HasToken(s, word)
  {
    hide UpToDate, Valid, GetDocument, ContentOf, ValidIds, Tokens, Windows, TokenDocs, TrigramsOf, TokensOf,
        ToLower, Names, Utf8;
    DocumentOf(env, d, s);
    LowerTwice(word);
    TokenDocsExact(env.idx, ToLower(word), d);
  }

  /** The documents that have all the tokens. */
  lemma AllTokensIs(idx: Index, tokens: set<Token>, d: DocId)
    requires Valid(idx) && tokens != {} && GetDocument(idx, d).Some?
    requires GetDocument(idx, d).value.segmentId in Active(idx)
    requires forall t :: t in tokens ==> ToLower(t) == t
    ensures d in AllTokens(idx, tokens) <==> tokens <= TokensOf(idx, GetDocument(idx, d).value)
  {
    hide Valid, GetDocument, TokenDocs, TokensOf, AnyListed, ToLower;
    forall t | t in tokens
      ensures d in TokenDocs(idx, t) <==> t in TokensOf(idx, GetDocument(idx, d).value)
    {
      TokenDocsExact(idx, t, d);
    }
    if tokens <= TokensOf(idx, GetDocument(idx, d).value) {
      var t :| t in tokens;
      ListedSomewhere(idx, t, d);
    }
  }

  lemma WordStep(env: Env, word: string, parts: set<Token>, bytes: seq<Byte>, d: DocId, s: string)
    requires Valid(env.idx) && UpToDate(env, d, s) && forall t :: t in parts ==> ToLower(t) == t
    ensures var step := TokenOrTrigram(ToLower(word), parts, QueryTrigrams(bytes));
            StepDocs(env, step).Some? && (Lets(env, step, d) <==> WordFits(env.idx.stopGrams, word, parts, bytes, s))
  {
    var ts := QueryTrigrams(bytes);
    var usable, idx := NonStop(env.idx, ts), env.idx;
    TrigramsOfNeedle(bytes);
    hide UpToDate, Valid, Windows, Utf8, TrigramDocs, TokenDocs, TokenDocsContaining, AllTokens, GetDocument,
        ContentOf, ValidIds, TrigramsOf, Tokens, NonStop, Elements, Names, ToLower, TokensOf, QueryTrigrams,
        Contains;
    DocumentOf(env, d, s);
    NonStopElements(idx, ts);
    LowerTwice(word);
    TokenDocsExact(idx, ToLower(word), d);
    if usable != [] {
      TrigramDocsExact(idx, usable, d);
    } else {
      TokenDocsContainingExact(idx, ToLower(word), d);
      if |parts| >= 2 {
        AllTokensIs(idx, parts, d);
      }
    }
    InWordDocs(idx, ToLower(word), parts, ts, d);
  }

  lemma InWordDocs(idx: Index, token: Token, parts: set<Token>, ts: seq<Trigram>, d: DocId)
    ensures d in WordDocs(idx, token, parts, ts) <==>
            || d in TokenDocs(idx, token)
            || (NonStop(idx, ts) != [] && d in TrigramDocs(idx, NonStop(idx, ts)))
            || (NonStop(idx, ts) == [] && d in TokenDocsContaining(idx, token))
            || (NonStop(idx, ts) == [] && |parts| >= 2 && d in AllTokens(idx, parts))
  {
    hide TokenDocs, TrigramDocs, TokenDocsContaining, AllTokens, NonStop;
  }

  // ------------------------------------------------------------- lists of lookups

  lemma {:induction false} LookupSteps(env: Env, words: seq<string>, d: DocId, s: string)
    requires Valid(env.idx) && UpToDate(env, d, s)
    ensures LookupsOf(words) != [] <==> exists k :: 0 <= k < |words| && |Utf8(words[k])| >= 2
    ensures StepsNarrow(env, LookupsOf(words)) <==> exists k :: 0 <= k < |words| && |Utf8(words[k])| >= 2
    ensures StepsFit(env, LookupsOf(words), d) <==>
            forall k :: 0 <= k < |words| && |Utf8(words[k])| >= 2 ==> HasToken(s, words[k])
    ensures !StepsBar(env, LookupsOf(words), d)
    decreases |words|
  {
    hide StepDocs, Valid, UpToDate, Utf8, HasToken, StepsNarrow, StepsFit, StepsBar, Lets, ToLower;
    if words == [] {
      NoSteps(env, d);
    } else {
      var init, last := words[..|words| - 1], words[|words| - 1];
      LookupSteps(env, init, d, s);
      assert words == init + [last];
      NoSteps(env, d);
      TokenStep(env, last, d, s);
      SingleStep(env, TokenLookup(ToLower(last)), d);
      StepsConcat(env, LookupsOf(init), if |Utf8(last)| >= 2 then [TokenLookup(ToLower(last))] else [], d);
    }
  }

  /** The open word reaches to `n`. */
  ghost predicate OpenAt(text: string, n: nat, open: string)
    requires n <= |text|
  {
    var o := n - |open|;
    && 0 <= o && open == text[o..n] && (forall i :: o <= i < n ==> !IsWhitespace(text[i]))
    && (o == 0 || IsWhitespace(text[o - 1]))
  }

  /** After `n` characters the closed words are the chunks that end before, and the open one reaches to there. */
  ghost predicate SplitAt(text: string, n: nat, words: seq<string>, open: string)
    requires n <= |text|
  {
    && OpenAt(text, n, open)
    && forall w :: w in words <==> ClosedBy(text, n, w)
  }

  lemma {:induction false} SplitsAt(text: string, n: nat)
    requires n <= |text|
    ensures SplitAt(text, n, SplitFirst(text, n).0, SplitFirst(text, n).1)
  {
    if n > 0 {
      SplitsAt(text, n - 1);
      var (words, open) := SplitFirst(text, n - 1);
      hide IsWhitespace, SplitFirst;
      SplitOn(text, n - 1, words, open);
      NextSplit(text, n - 1);
    }
  }

  lemma NextSplit(text: string, n: nat)
    requires n < |text|
    ensures var (words, open) := SplitFirst(text, n);
            SplitFirst(text, n + 1) ==
            if !IsWhitespace(text[n]) then (words, open + [text[n]])
            else if open == "" then (words, "")
            else (words + [open], "")
  {
  }

  /** A chunk that ends just here is the open word. */
  lemma SameStart(text: string, n: nat, o: nat, a: nat)
    requires o <= n <= |text| && a < n
    requires (forall i :: o <= i < n ==> !IsWhitespace(text[i])) && (o == 0 || IsWhitespace(text[o - 1]))
    requires (forall i :: a <= i < n ==> !IsWhitespace(text[i])) && (a == 0 || IsWhitespace(text[a - 1]))
    ensures a == o
  {
    hide IsWhitespace;
    assert o > 0 ==> !(a <= o - 1 < n);
    assert a > 0 ==> !(o <= a - 1 < n);
  }

  lemma EndsHere(text: string, n: nat, open: string, a: nat)
    requires n <= |text| && OpenAt(text, n, open) && IsChunk(text, a, n)
    ensures a == n - |open| && open != ""
  {
    hide IsWhitespace;
    SameStart(text, n, n - |open|, a);
  }

  ghost predicate ClosedBy(text: string, n: nat, w: string) {
    exists a: nat, b: nat :: b < n && IsChunk(text, a, b) && text[a..b] == w
  }

  lemma WordCloses(text: string, n: nat, open: string, w: string)
    requires n < |text| && OpenAt(text, n, open) && IsWhitespace(text[n])
    ensures ClosedBy(text, n + 1, w) <==> ClosedBy(text, n, w) || (open != "" && w == open)
  {
    assert open != "" ==> IsChunk(text, n - |open|, n);
    hide IsWhitespace;
    if a: nat, b: nat :| b < n + 1 && IsChunk(text, a, b) && text[a..b] == w {
      if b == n {
        EndsHere(text, n, open, a);
      }
    }
    hide IsChunk;
  }

  lemma NoneEndsIn(text: string, a: nat, b: nat)
    requires IsChunk(text, a, b)
    ensures a < b <= |text| && (b < |text| ==> IsWhitespace(text[b]))
  {
    hide IsWhitespace;
  }

  lemma WordGrows(text: string, n: nat, w: string)
    requires n < |text| && !IsWhitespace(text[n])
    ensures ClosedBy(text, n + 1, w) <==> ClosedBy(text, n, w)
  {
    hide IsWhitespace;
    if a: nat, b: nat :| b < n + 1 && IsChunk(text, a, b) && text[a..b] == w {
      NoneEndsIn(text, a, b);
    }
    hide IsChunk;
  }

  lemma SliceGrows(text: string, o: nat, n: nat)
    requires o <= n < |text|
    ensures text[o..n + 1] == text[o..n] + [text[n]]
  {
  }

  lemma OpenGrows(text: string, n: nat, open: string)
    requires n < |text| && OpenAt(text, n, open)
    ensures !IsWhitespace(text[n]) ==> OpenAt(text, n + 1, open + [text[n]])
    ensures IsWhitespace(text[n]) ==> OpenAt(text, n + 1, "")
  {
    hide IsWhitespace;
    var o := n - |open|;
    SliceGrows(text, o, n);
    if IsWhitespace(text[n]) {
      assert text[n + 1..n + 1] == "";
    } else {
      assert (n + 1) - |open + [text[n]]| == o;
    }
  }

  lemma SplitOn(text: string, n: nat, words: seq<string>, open: string)
    requires n < |text| && SplitAt(text, n, words, open)
    ensures !IsWhitespace(text[n]) ==> SplitAt(text, n + 1, words, open + [text[n]])
    ensures IsWhitespace(text[n]) ==> SplitAt(text, n + 1, if open == "" then words else words + [open], "")
  {
    hide IsWhitespace, ClosedBy, OpenAt;
    OpenGrows(text, n, open);
    if IsWhitespace(text[n]) {
      var more := if open == "" then words else words + [open];
      forall w
        ensures w in more <==> ClosedBy(text, n + 1, w)
      {
        WordCloses(text, n, open, w);
        assert w in words <==> ClosedBy(text, n, w);
      }
      assert SplitAt(text, n + 1, more, "");
    } else {
      forall w
        ensures ClosedBy(text, n + 1, w) <==> ClosedBy(text, n, w)
      {
        WordGrows(text, n, w);
      }
    }
  }

  /** Splitting at white space yields the chunks. */
  lemma SplitIsChunks(text: string, w: string)
    ensures w in SplitWhitespace(text) <==> exists a: nat, b: nat :: IsChunk(text, a, b) && text[a..b] == w
  {
    SplitsAt(text, |text|);
    var (words, open) := SplitFirst(text, |text|);
    var n := |text|;
    hide SplitFirst, IsWhitespace;
    if a: nat, b: nat :| IsChunk(text, a, b) && text[a..b] == w {
      if b == n {
        EndsHere(text, n, open, a);
      }
    }
    if open != "" && w == open {
      assert IsChunk(text, n - |open|, n);
    }
  }

  lemma ChunkSteps(env: Env, text: string, d: DocId, s: string)
    requires Valid(env.idx) && UpToDate(env, d, s)
    ensures var steps := LookupsOf(SplitWhitespace(text));
            && (steps != [] <==> exists w :: LongChunk(text, w))
            && (StepsNarrow(env, steps) <==> exists w :: LongChunk(text, w))
            && (StepsFit(env, steps, d) <==> forall w :: LongChunk(text, w) ==> HasToken(s, w))
            && !StepsBar(env, steps, d)
  {
    var words := SplitWhitespace(text);
    hide UpToDate, Valid, HasToken, LookupsOf, StepsNarrow, StepsFit, StepsBar, Utf8, SplitWhitespace;
    LookupSteps(env, words, d, s);
    forall w
      ensures LongChunk(text, w) <==> |Utf8(w)| >= 2 && w in words
    {
      hide IsChunk;
      SplitIsChunks(text, w);
    }
    hide LongChunk;
    if k :| 0 <= k < |words| && |Utf8(words[k])| >= 2 {
      assert words[k] in words && LongChunk(text, words[k]);
    }
    forall k | 0 <= k < |words|
      ensures words[k] in words
    {
    }
    if w :| LongChunk(text, w) {
      var k :| 0 <= k < |words| && words[k] == w;
    }
    if forall k :: 0 <= k < |words| && |Utf8(words[k])| >= 2 ==> HasToken(s, words[k]) {
      forall w | LongChunk(text, w)
        ensures HasToken(s, w)
      {
        var k :| 0 <= k < |words| && words[k] == w;
      }
    }
  }

  // ------------------------------------------------------------------- the leaves

  lemma OneWordIs(text: string)
    ensures OneWord(text) <==> IsSingleWord(text)
  {
    hide IsWhitespace, Utf8;
    if IsSingleWord(text) {
      forall c | c in text
        ensures !IsWhitespace(c)
      {
        var i :| 0 <= i < |text| && text[i] == c;
      }
    }
  }

  lemma LoweredTokens(text: string)
    ensures forall t :: t in Names(Tokens(text)) ==> ToLower(t) == t
  {
    var l := Tokens(text);
    hide Tokens, ToLower;
    forall t | t in Names(l)
      ensures ToLower(t) == t
    {
      var i :| 0 <= i < |l| && l[i].0 == t;
      assert (t, l[i].1) in l;
      LoweredToken(text, t, l[i].1);
    }
  }

  /** The four questions about one list of steps. */
  ghost predicate Amounts(env: Env, steps: seq<PlanStep>, d: DocId, has: bool, narrows: bool, fits: bool) {
    && (steps != [] <==> has) && (StepsNarrow(env, steps) <==> narrows)
    && (StepsFit(env, steps, d) <==> fits) && !StepsBar(env, steps, d)
  }

  lemma OneAmounts(env: Env, step: PlanStep, d: DocId, narrows: bool, fits: bool)
    requires !step.Exclude? && (StepDocs(env, step).Some? <==> narrows) && (Lets(env, step, d) <==> fits)
    ensures Amounts(env, [step], d, true, narrows, fits)
  {
    hide StepDocs, Lets, StepsNarrow, StepsFit, StepsBar;
    SingleStep(env, step, d);
  }

  lemma NoneAmounts(env: Env, d: DocId)
    ensures Amounts(env, [], d, false, false, true)
  {
    hide StepsNarrow, StepsFit, StepsBar;
    NoSteps(env, d);
  }

  lemma LiteralAmounts(env: Env, text: string, ci: bool, d: DocId, s: string)
    requires Valid(env.idx) && UpToDate(env, d, s)
    ensures Amounts(env, LiteralSteps(text, ci), d, TextSteps(text, ci), TextNarrows(env.idx.stopGrams, text, ci),
                    TextFits(env.idx.stopGrams, text, ci, s))
  {
    var ts := QueryTrigrams(Utf8(text));
    TrigramsOfNeedle(Utf8(text));
    assert ts == [] <==> |Utf8(text)| < 3;
    hide UpToDate, Valid, Windows, Utf8, Tokens, Names, ToLower, QueryTrigrams, WordFits, HasToken, HasUsable,
        LongChunk, LookupsOf, SplitWhitespace, OneWord, IsSingleWord, StepDocs, Lets, StepsNarrow, StepsFit,
        StepsBar, Elements;
    OneWordIs(text);
    if OneWord(text) {
      if ts != [] {
        LoweredTokens(text);
        WordStep(env, text, Names(Tokens(text)), Utf8(text), d, s);
        OneAmounts(env, TokenOrTrigram(ToLower(text), Names(Tokens(text)), ts), d, true,
                   WordFits(env.idx.stopGrams, text, Names(Tokens(text)), Utf8(text), s));
      } else {
        TokenStep(env, text, d, s);
        OneAmounts(env, TokenLookup(ToLower(text)), d, true, HasToken(s, text));
      }
    } else if !ci && ts != [] {
      TrigramStep(env, ts, Windows(Utf8(text)), d, s);
      OneAmounts(env, TrigramIntersect(ts), d, Windows(Utf8(text)) - env.idx.stopGrams != {},
                 HasUsable(env.idx.stopGrams, Windows(Utf8(text)), s));
    } else {
      ChunkSteps(env, text, d, s);
    }
  }

  lemma GramsSnoc(init: seq<string>, last: string)
    ensures GramsOf(init + [last]) == GramsOf(init) + Windows(Utf8(last))
  {
    hide Utf8, Windows;
    var terms := init + [last];
    forall t
      ensures t in GramsOf(terms) <==> t in GramsOf(init) || t in Windows(Utf8(last))
    {
      if t in GramsOf(init) {
        var k :| 0 <= k < |init| && t in Windows(Utf8(init[k]));
        assert terms[k] == init[k];
      }
      if t in Windows(Utf8(last)) {
        assert terms[|init|] == last;
      }
      if t in GramsOf(terms) {
        var k :| 0 <= k < |terms| && t in Windows(Utf8(terms[k]));
        assert k < |init| ==> terms[k] == init[k];
      }
    }
  }

  lemma ElementsConcat(a: seq<Trigram>, b: seq<Trigram>)
    ensures Elements(a + b) == Elements(a) + Elements(b)
  {
  }

  lemma {:induction false} AllTrigramsAre(terms: seq<string>)
    ensures Elements(AllTrigrams(terms)) == GramsOf(terms)
    decreases |terms|
  {
    hide QueryTrigrams, Utf8, Windows, Elements, GramsOf;
    if terms == [] {
      NoGrams();
    } else {
      var init, last := terms[..|terms| - 1], terms[|terms| - 1];
      assert terms == init + [last];
      AllTrigramsAre(init);
      TrigramsOfNeedle(Utf8(last));
      ElementsConcat(AllTrigrams(init), QueryTrigrams(Utf8(last)));
      GramsSnoc(init, last);
    }
  }

  lemma NoGrams()
    ensures Elements<Trigram>([]) == {} && GramsOf([]) == {}
  {
  }

  lemma NoElementNoList(ts: seq<Trigram>)
    ensures ts == [] <==> Elements(ts) == {}
  {
    if ts != [] {
      assert ts[0] in Elements(ts);
    }
  }

  lemma SortedElements(ts: seq<Trigram>)
    ensures Elements(SortDedup(ts)) == Elements(ts) && (SortDedup(ts) == [] <==> Elements(ts) == {})
  {
    assert forall t :: t in SortDedup(ts) <==> t in ts;
    NoElementNoList(SortDedup(ts));
  }

  lemma NearAmounts(env: Env, terms: seq<string>, distance: nat, ci: bool, d: DocId, s: string)
    requires Valid(env.idx) && UpToDate(env, d, s)
    ensures var node := QueryNode.Near(terms, distance);
            Amounts(env, NearSteps(terms, ci), d, LeafSteps(node, ci), LeafNarrows(env.idx.stopGrams, node, ci),
                    LeafFits(env.idx.stopGrams, node, ci, s))
  {
    var ts := SortDedup(AllTrigrams(terms));
    hide UpToDate, Valid, Windows, Utf8, HasToken, HasUsable, LookupsOf, StepDocs, Lets, StepsNarrow, StepsFit,
        StepsBar, Elements, AllTrigrams, GramsOf, SortDedup;
    AllTrigramsAre(terms);
    SortedElements(AllTrigrams(terms));
    if !ci && ts != [] {
      TrigramStep(env, ts, GramsOf(terms), d, s);
      OneAmounts(env, TrigramIntersect(ts), d, GramsOf(terms) - env.idx.stopGrams != {},
                 HasUsable(env.idx.stopGrams, GramsOf(terms), s));
    } else {
      LookupSteps(env, terms, d, s);
    }
  }

  lemma OneTokenName(l: seq<Positioned>)
    requires |l| == 1
    ensures Names(l) == {l[0].0}
  {
  }

  lemma PhraseStep(env: Env, text: string, d: DocId, s: string)
    requires Valid(env.idx) && UpToDate(env, d, s) && |Tokens(text)| >= 2
    ensures Amounts(env, [PositionalPhrase(Tokens(text))], d, true, true, StandsIn(Tokens(s), Tokens(text)))
  {
    hide *;
    PositionalDocs(env, Tokens(text));
    PhraseLetsIff(env, text, d, s);
    OneAmounts(env, PositionalPhrase(Tokens(text)), d, true, StandsIn(Tokens(s), Tokens(text)));
  }

  /** A phrase of one word under -i. */
  lemma OneTokenAmounts(env: Env, text: string, d: DocId, s: string)
    requires Valid(env.idx) && UpToDate(env, d, s) && |Tokens(text)| == 1
    ensures Amounts(env, PhraseSteps(text, true), d, true, true,
                    OneTokenFits(env.idx.stopGrams, Tokens(text)[0].0, text, s))
  {
    var t, ts := Tokens(text)[0].0, QueryTrigrams(Utf8(text));
    TrigramsOfNeedle(Utf8(text));
    assert ts == [] <==> |Utf8(text)| < 3;
    assert (t, Tokens(text)[0].1) in Tokens(text);
    hide UpToDate, Valid, Windows, Utf8, Tokens, Names, ToLower, QueryTrigrams, WordFits, HasToken, HasUsable,
        StepDocs, Lets, StepsNarrow, StepsFit, StepsBar, Elements;
    LoweredToken(text, t, Tokens(text)[0].1);
    OneTokenName(Tokens(text));
    if ts != [] {
      WordStep(env, t, {t}, Utf8(text), d, s);
      OneAmounts(env, TokenOrTrigram(t, {t}, ts), d, true, WordFits(env.idx.stopGrams, t, {t}, Utf8(text), s));
    } else {
      TokenStep(env, t, d, s);
      OneAmounts(env, TokenLookup(t), d, true, HasToken(s, t));
    }
  }

  lemma ExactPhraseAmounts(env: Env, text: string, d: DocId, s: string)
    requires Valid(env.idx) && UpToDate(env, d, s)
    ensures var node := QueryNode.Phrase(text);
            Amounts(env, PhraseSteps(text, false), d, LeafSteps(node, false),
              LeafNarrows(env.idx.stopGrams, node, false),
                    LeafFits(env.idx.stopGrams, node, false, s))
  {
    hide *;
    if |Utf8(text)| < 3 {
      ShortPhrase(env, text, s);
      NoneAmounts(env, d);
    } else {
      var ts, grams, stop := QueryTrigrams(Utf8(text)), Windows(Utf8(text)), env.idx.stopGrams;
      TrigramsOfNeedle(Utf8(text));
      TrigramStep(env, ts, grams, d, s);
      OneAmounts(env, TrigramIntersect(ts), d, grams - stop != {}, HasUsable(stop, grams, s));
      if |Tokens(text)| >= 2 {
        PhraseStep(env, text, d, s);
        BothAmounts(env, [TrigramIntersect(ts)], [PositionalPhrase(Tokens(text))], d, grams - stop != {},
                    HasUsable(stop, grams, s), true, StandsIn(Tokens(s), Tokens(text)));
      }
      LongPhrase(env, text, s);
    }
  }

  lemma BothAmounts(env: Env, a: seq<PlanStep>, b: seq<PlanStep>, d: DocId, narrows: bool, fits: bool, more: bool,
      also: bool)
    requires Amounts(env, a, d, true, narrows, fits) && Amounts(env, b, d, true, more, also)
    ensures Amounts(env, a + b, d, true, narrows || more, fits && also)
  {
    hide StepsNarrow, StepsFit, StepsBar;
    StepsConcat(env, a, b, d);
  }

  /** What is planned and asked for a phrase below a trigram: nothing. */
  lemma ShortPhrase(env: Env, text: string, s: string)
    requires |Utf8(text)| < 3
    ensures var node, stop := QueryNode.Phrase(text), env.idx.stopGrams;
            && PhraseSteps(text, false) == [] && !LeafSteps(node, false) && !LeafNarrows(stop, node, false)
            && LeafFits(stop, node, false, s)
  {
    FewTokensOf(text);
    ShortWindows(Utf8(text));
    hide Tokens, Windows, Utf8, StandsIn;
  }

  lemma LongPhrase(env: Env, text: string, s: string)
    requires |Utf8(text)| >= 3
    ensures var node, stop, grams := QueryNode.Phrase(text), env.idx.stopGrams, Windows(Utf8(text));
            && LeafSteps(node, false)
            && (|Tokens(text)| < 2 ==> PhraseSteps(text, false) == [TrigramIntersect(QueryTrigrams(Utf8(text)))])
            && (|Tokens(text)| >= 2 ==>
                PhraseSteps(text, false) ==
                [TrigramIntersect(QueryTrigrams(Utf8(text)))] + [PositionalPhrase(Tokens(text))])
            && (LeafNarrows(stop, node, false) <==> grams - stop != {} || |Tokens(text)| >= 2)
            && (LeafFits(stop, node, false, s) <==>
                HasUsable(stop, grams, s) && (|Tokens(text)| >= 2 ==> StandsIn(Tokens(s), Tokens(text))))
  {
    hide Tokens, Windows, Utf8, StandsIn, QueryTrigrams, HasUsable, Elements, WordFits, OneTokenFits, TextFits,
        TextNarrows, TextSteps, GramsOf, RegexPrefix.ExtractPrefix;
  }

  lemma ShortWindows(c: seq<Byte>)
    requires |c| < 3
    ensures Windows(c) == {}
  {
  }

  /** Two words take three bytes at least. */
  lemma FewTokensOf(s: string)
    requires |Utf8(s)| < 3
    ensures |Tokens(s)| < 2
  {
    hide *;
    Losses.FewTokens(s);
  }

  lemma RegexAmounts(env: Env, pattern: string, ci: bool, d: DocId, s: string)
    requires Valid(env.idx) && UpToDate(env, d, s)
    ensures var node := QueryNode.Regex(pattern);
            Amounts(env, RegexSteps(pattern, ci), d, LeafSteps(node, ci), LeafNarrows(env.idx.stopGrams, node, ci),
                    LeafFits(env.idx.stopGrams, node, ci, s))
  {
    var prefix := RegexPrefix.ExtractPrefix(pattern);
    hide RegexPrefix.ExtractPrefix, UpToDate, Valid, Windows, HasUsable, StepDocs, Lets, StepsNarrow, StepsFit,
        StepsBar, Elements, Utf8;
    NoneAmounts(env, d);
    if !ci && prefix.Some? {
      var bytes := Utf8(prefix.value);
      TrigramsOfNeedle(bytes);
      assert QueryTrigrams(bytes) == [] <==> |bytes| < 3;
      hide QueryTrigrams;
      TrigramStep(env, QueryTrigrams(bytes), Windows(bytes), d, s);
      OneAmounts(env, TrigramIntersect(QueryTrigrams(bytes)), d, Windows(bytes) - env.idx.stopGrams != {},
                 HasUsable(env.idx.stopGrams, Windows(bytes), s));
    }
  }

  predicate IsPlainLeaf(node: QueryNode) {
    !node.And? && !node.Or? && !node.Not?
  }

  lemma LeafAmounts(env: Env, node: QueryNode, ci: bool, d: DocId, s: string)
    requires Valid(env.idx) && UpToDate(env, d, s) && IsPlainLeaf(node)
    ensures Amounts(env, PlanNode(node, ci).steps, d, LeafSteps(node, ci), LeafNarrows(env.idx.stopGrams, node, ci),
                    LeafFits(env.idx.stopGrams, node, ci, s))
  {
    hide UpToDate, Valid, LiteralSteps, NearSteps, PhraseSteps, RegexSteps, Amounts, TextSteps, TextNarrows,
        TextFits, OneTokenFits, HasUsable, Windows, Utf8, StandsIn, Tokens, RegexPrefix.ExtractPrefix;
    match node {
      case Literal(text) => LiteralAmounts(env, text, ci, d, s);
      case BoostedLiteral(text, _) => LiteralAmounts(env, text, ci, d, s);
      case Near(terms, distance) => NearAmounts(env, terms, distance, ci, d, s);
      case Phrase(text) =>
        if !ci {
          ExactPhraseAmounts(env, text, d, s);
        } else {
          FoldedPhraseAmounts(env, text, d, s);
        }
      case Regex(pattern) => RegexAmounts(env, pattern, ci, d, s);
      case Empty => NoneAmounts(env, d);
    }
  }

  lemma FoldedPhraseAmounts(env: Env, text: string, d: DocId, s: string)
    requires Valid(env.idx) && UpToDate(env, d, s)
    ensures var node := QueryNode.Phrase(text);
            Amounts(env, PhraseSteps(text, true), d, LeafSteps(node, true), LeafNarrows(env.idx.stopGrams, node, true),
                    LeafFits(env.idx.stopGrams, node, true, s))
  {
    hide UpToDate, Valid, Amounts, OneTokenFits, HasUsable, Windows, Utf8, StandsIn, Tokens, QueryTrigrams;
    if |Tokens(text)| >= 2 {
      PhraseStep(env, text, d, s);
    } else if |Tokens(text)| == 1 {
      OneTokenAmounts(env, text, d, s);
    } else {
      NoneAmounts(env, d);
    }
  }

  // -------------------------------------------------------------------- the trees

  lemma LeafAgrees(env: Env, node: QueryNode, ci: bool, d: DocId, s: string)
    requires Valid(env.idx) && UpToDate(env, d, s) && IsPlainLeaf(node)
    ensures Agrees(env, node, ci, d, s)
  {
    hide *;
    LeafAmounts(env, node, ci, d, s);
    LeafSays(env.idx.stopGrams, node, ci, s, env.engine);
    AmountsMean(env, PlanNode(node, ci).steps, d, LeafSteps(node, ci), LeafNarrows(env.idx.stopGrams, node, ci),
                LeafFits(env.idx.stopGrams, node, ci, s));
    IsAgreed(env, node, ci, d, s);
  }

  lemma AmountsMean(env: Env, steps: seq<PlanStep>, d: DocId, has: bool, narrows: bool, fits: bool)
    requires Amounts(env, steps, d, has, narrows, fits)
    ensures (steps != [] <==> has) && (StepsNarrow(env, steps) <==> narrows)
    ensures (StepsFit(env, steps, d) <==> fits) && !StepsBar(env, steps, d)
  {
    hide StepsNarrow, StepsFit, StepsBar;
  }

  lemma LeafSays(stop: set<Trigram>, node: QueryNode, ci: bool, s: string, engine: Engine)
    requires IsPlainLeaf(node)
    ensures (HasSteps(node, ci) <==> LeafSteps(node, ci)) && (Narrows(stop, node, ci) <==> LeafNarrows(stop, node, ci))
    ensures (Fits(stop, node, ci, s, engine) <==> LeafFits(stop, node, ci, s)) && !Barred(stop, node, ci, s, engine)
  {
    hide LeafSteps, LeafNarrows, LeafFits;
  }

  /** The steps of the first `n` parts, against what the parts say. */
  ghost predicate PartsAgree(env: Env, node: QueryNode, n: nat, ci: bool, d: DocId, s: string)
    requires n <= |Nodes(node)|
  {
    var steps, stop, nodes := StepsOf(node, n, ci), env.idx.stopGrams, Nodes(node);
    && (steps != [] <==> exists k :: 0 <= k < n && HasSteps(nodes[k], ci))
    && (StepsNarrow(env, steps) <==> exists k :: 0 <= k < n && Narrows(stop, nodes[k], ci))
    && (StepsFit(env, steps, d) <==> forall k :: 0 <= k < n ==> Fits(stop, nodes[k], ci, s, env.engine))
    && (StepsBar(env, steps, d) <==> exists k :: 0 <= k < n && Barred(stop, nodes[k], ci, s, env.engine))
  }

  lemma {:induction false} StepsOfAgree(env: Env, node: QueryNode, n: nat, ci: bool, d: DocId, s: string)
    requires n <= |Nodes(node)| && forall k :: 0 <= k < |Nodes(node)| ==> Agrees(env, Nodes(node)[k], ci, d, s)
    ensures PartsAgree(env, node, n, ci, d, s)
    decreases n
  {
    hide PlanNode, StepsNarrow, StepsFit, StepsBar, HasSteps, Narrows, Fits, Barred;
    if n == 0 {
      NoSteps(env, d);
    } else {
      StepsOfAgree(env, node, n - 1, ci, d, s);
      assert Agrees(env, Nodes(node)[n - 1], ci, d, s);
      StepsConcat(env, StepsOf(node, n - 1, ci), PlanNode(Nodes(node)[n - 1], ci).steps, d);
    }
  }

  lemma AndAgrees(env: Env, node: QueryNode, ci: bool, d: DocId, s: string)
    requires node.And? && forall k :: 0 <= k < |Nodes(node)| ==> Agrees(env, Nodes(node)[k], ci, d, s)
    ensures Agrees(env, node, ci, d, s)
  {
    var n := |Nodes(node)|;
    StepsOfAgree(env, node, n, ci, d, s);
    AndStepsAre(node, ci);
    hide PlanNode, StepsOf, StepsNarrow, StepsFit, StepsBar, Agrees;
    AndSays(env.idx.stopGrams, node, ci, s, env.engine);
    hide HasSteps, Narrows, Fits, Barred;
    IsAgreed(env, node, ci, d, s);
  }

  lemma AndStepsAre(node: QueryNode, ci: bool)
    requires node.And?
    ensures PlanNode(node, ci).steps == StepsOf(node, |Nodes(node)|, ci)
  {
  }

  lemma AndSays(stop: set<Trigram>, node: QueryNode, ci: bool, s: string, engine: Engine)
    requires node.And?
    ensures var nodes := Nodes(node);
            && (HasSteps(node, ci) <==> exists k :: 0 <= k < |nodes| && HasSteps(nodes[k], ci))
            && (Narrows(stop, node, ci) <==> exists k :: 0 <= k < |nodes| && Narrows(stop, nodes[k], ci))
            && (Fits(stop, node, ci, s, engine) <==>
                forall k :: 0 <= k < |nodes| ==> Fits(stop, nodes[k], ci, s, engine))
            && (Barred(stop, node, ci, s, engine) <==>
                exists k :: 0 <= k < |nodes| && Barred(stop, nodes[k], ci, s, engine))
  {
    match node {
      case And(nodes) => assert Nodes(node) == nodes;
    }
  }

  lemma IsAgreed(env: Env, node: QueryNode, ci: bool, d: DocId, s: string)
    requires var steps, stop := PlanNode(node, ci).steps, env.idx.stopGrams;
             && (steps != [] <==> HasSteps(node, ci))
             && (StepsNarrow(env, steps) <==> Narrows(stop, node, ci))
             && (StepsFit(env, steps, d) <==> Fits(stop, node, ci, s, env.engine))
             && (StepsBar(env, steps, d) <==> Barred(stop, node, ci, s, env.engine))
    ensures Agrees(env, node, ci, d, s)
  {
    hide PlanNode, StepsNarrow, StepsFit, StepsBar, HasSteps, Narrows, Fits, Barred;
  }

  /** A candidate of a plan is a candidate by the tree. */
  lemma PlanCandidate(env: Env, node: QueryNode, ci: bool, d: DocId, s: string)
    requires d in ValidIds(env.idx) && Agrees(env, node, ci, d, s)
    ensures d in Simple(env, PlanNode(node, ci)) <==> Candidate(env.idx.stopGrams, node, ci, s, env.engine)
  {
    hide PlanNode, StepsNarrow, StepsFit, StepsBar, HasSteps, Narrows, Fits, Barred, ValidIds, Simple;
    SimpleIs(env, PlanNode(node, ci), d);
  }

  lemma {:induction false} InSomePart(env: Env, step: PlanStep, n: nat, d: DocId)
    requires n <= |PlansIn(step)|
    ensures d in UnionOf(env, step, n) <==> exists k :: 0 <= k < n && d in Simple(env, PlansIn(step)[k])
    decreases n
  {
    hide Simple;
    if n > 0 {
      InSomePart(env, step, n - 1, d);
    }
  }

  lemma UnionStep(env: Env, plans: seq<QueryPlan>, d: DocId)
    ensures StepDocs(env, Union(plans)).Some?
    ensures Lets(env, Union(plans), d) <==> exists k :: 0 <= k < |plans| && d in Simple(env, plans[k])
  {
    InSomePart(env, Union(plans), |plans|, d);
    assert StepDocs(env, Union(plans)) == Some(UnionOf(env, Union(plans), |plans|));
    hide Simple, UnionOf;
  }

  lemma {:induction false} InAllParts(env: Env, step: PlanStep, n: nat, d: DocId)
    requires n <= |PlansIn(step)|
    ensures MeetOf(env, step, n).Some? <==> n > 0
    ensures n > 0 ==>
            (d in MeetOf(env, step, n).value <==> forall k :: 0 <= k < n ==> d in Simple(env, PlansIn(step)[k]))
    decreases n
  {
    hide Simple;
    if n > 0 {
      InAllParts(env, step, n - 1, d);
    }
  }

  /** An intersection of plans, which planning a tree does not yield, narrows to what all of them do. */
  lemma IntersectStep(env: Env, plans: seq<QueryPlan>, d: DocId)
    ensures StepDocs(env, Intersect(plans)).Some? <==> plans != []
    ensures Lets(env, Intersect(plans), d) <==> forall k :: 0 <= k < |plans| ==> d in Simple(env, plans[k])
  {
    InAllParts(env, Intersect(plans), |plans|, d);
    assert StepDocs(env, Intersect(plans)) == MeetOf(env, Intersect(plans), |plans|);
    hide Simple, MeetOf;
  }

  lemma {:induction false} PlansAre(node: QueryNode, n: nat, ci: bool, plan: QueryPlan)
    requires n <= |Nodes(node)|
    ensures plan in SubPlans(node, n, ci) <==>
            exists k :: 0 <= k < n && plan == PlanNode(Nodes(node)[k], ci) && plan.steps != []
    decreases n
  {
    hide PlanNode;
    if n > 0 {
      PlansAre(node, n - 1, ci, plan);
    }
  }

  /** Some plan of the union has the document exactly when some branch with steps does. */
  lemma BranchPlans(env: Env, node: QueryNode, ci: bool, d: DocId)
    ensures var plans, nodes := SubPlans(node, |Nodes(node)|, ci), Nodes(node);
            && (plans != [] <==> exists k :: 0 <= k < |nodes| && PlanNode(nodes[k], ci).steps != [])
            && ((exists j :: 0 <= j < |plans| && d in Simple(env, plans[j])) <==>
                exists k :: 0 <= k < |nodes| && PlanNode(nodes[k], ci).steps != []
                  && d in Simple(env, PlanNode(nodes[k], ci)))
  {
    hide *;
    SomeBranch(node, ci);
    if j :| 0 <= j < |SubPlans(node, |Nodes(node)|, ci)| && d in Simple(env, SubPlans(node, |Nodes(node)|, ci)[j]) {
      var k := BranchOf(node, ci, j);
    }
    if k :| 0 <= k < |Nodes(node)| && PlanNode(Nodes(node)[k], ci).steps != []
            && d in Simple(env, PlanNode(Nodes(node)[k], ci)) {
      var j := PlanOf(node, ci, k);
    }
  }

  lemma BranchOf(node: QueryNode, ci: bool, j: nat) returns (k: nat)
    requires j < |SubPlans(node, |Nodes(node)|, ci)|
    ensures k < |Nodes(node)| && PlanNode(Nodes(node)[k], ci).steps != []
    ensures SubPlans(node, |Nodes(node)|, ci)[j] == PlanNode(Nodes(node)[k], ci)
  {
    var plan := SubPlans(node, |Nodes(node)|, ci)[j];
    hide PlanNode, SubPlans;
    PlansAre(node, |Nodes(node)|, ci, plan);
    k :| 0 <= k < |Nodes(node)| && plan == PlanNode(Nodes(node)[k], ci) && plan.steps != [];
  }

  lemma PlanOf(node: QueryNode, ci: bool, k: nat) returns (j: nat)
    requires k < |Nodes(node)| && PlanNode(Nodes(node)[k], ci).steps != []
    ensures j < |SubPlans(node, |Nodes(node)|, ci)|
    ensures SubPlans(node, |Nodes(node)|, ci)[j] == PlanNode(Nodes(node)[k], ci)
  {
    hide PlanNode, SubPlans;
    PlansAre(node, |Nodes(node)|, ci, PlanNode(Nodes(node)[k], ci));
    var plans := SubPlans(node, |Nodes(node)|, ci);
    j :| 0 <= j < |plans| && plans[j] == PlanNode(Nodes(node)[k], ci);
  }

  lemma SomeBranch(node: QueryNode, ci: bool)
    ensures SubPlans(node, |Nodes(node)|, ci) != [] <==>
            exists k :: 0 <= k < |Nodes(node)| && PlanNode(Nodes(node)[k], ci).steps != []
  {
    hide *;
    if SubPlans(node, |Nodes(node)|, ci) != [] {
      var k := BranchOf(node, ci, 0);
    }
    if k :| 0 <= k < |Nodes(node)| && PlanNode(Nodes(node)[k], ci).steps != [] {
      var j := PlanOf(node, ci, k);
    }
  }

  lemma OrSays(stop: set<Trigram>, node: QueryNode, ci: bool, s: string, engine: Engine)
    requires node.Or?
    ensures var nodes := Nodes(node);
            && (HasSteps(node, ci) <==> exists k :: 0 <= k < |nodes| && HasSteps(nodes[k], ci))
            && (Narrows(stop, node, ci) <==> HasSteps(node, ci))
            && (Fits(stop, node, ci, s, engine) <==>
                !HasSteps(node, ci)
                || exists k :: 0 <= k < |nodes| && HasSteps(nodes[k], ci) && Candidate(stop, nodes[k], ci, s, engine))
            && !Barred(stop, node, ci, s, engine)
  {
    hide Candidate;
    match node {
      case Or(nodes) => assert Nodes(node) == nodes;
    }
  }

  lemma OrStepsAre(node: QueryNode, ci: bool)
    requires node.Or?
    ensures var plans := SubPlans(node, |Nodes(node)|, ci);
            PlanNode(node, ci).steps == if plans == [] then [] else [Union(plans)]
  {
    hide SubPlans;
  }

  lemma OrAgrees(env: Env, node: QueryNode, ci: bool, d: DocId, s: string)
    requires node.Or? && d in ValidIds(env.idx)
    requires forall k :: 0 <= k < |Nodes(node)| ==> Agrees(env, Nodes(node)[k], ci, d, s)
    ensures Agrees(env, node, ci, d, s)
  {
    var plans := SubPlans(node, |Nodes(node)|, ci);
    hide *;
    BranchesAgree(env, node, ci, d, s);
    BranchPlans(env, node, ci, d);
    OrSays(env.idx.stopGrams, node, ci, s, env.engine);
    OrStepsAre(node, ci);
    UnionStep(env, plans, d);
    SingleStep(env, Union(plans), d);
    NoSteps(env, d);
    IsAgreed(env, node, ci, d, s);
  }

  lemma BranchesAgree(env: Env, node: QueryNode, ci: bool, d: DocId, s: string)
    requires d in ValidIds(env.idx) && forall k :: 0 <= k < |Nodes(node)| ==> Agrees(env, Nodes(node)[k], ci, d, s)
    ensures forall k :: 0 <= k < |Nodes(node)| ==>
              (PlanNode(Nodes(node)[k], ci).steps != [] <==> HasSteps(Nodes(node)[k], ci))
              && (d in Simple(env, PlanNode(Nodes(node)[k], ci)) <==>
                  Candidate(env.idx.stopGrams, Nodes(node)[k], ci, s, env.engine))
  {
    hide *;
    forall k | 0 <= k < |Nodes(node)|
      ensures PlanNode(Nodes(node)[k], ci).steps != [] <==> HasSteps(Nodes(node)[k], ci)
      ensures d in Simple(env, PlanNode(Nodes(node)[k], ci)) <==>
              Candidate(env.idx.stopGrams, Nodes(node)[k], ci, s, env.engine)
    {
      StepsAgree(env, Nodes(node)[k], ci, d, s);
      PlanCandidate(env, Nodes(node)[k], ci, d, s);
    }
  }

  lemma StepsAgree(env: Env, node: QueryNode, ci: bool, d: DocId, s: string)
    requires Agrees(env, node, ci, d, s)
    ensures PlanNode(node, ci).steps != [] <==> HasSteps(node, ci)
  {
    hide PlanNode, StepsNarrow, StepsFit, StepsBar, HasSteps, Narrows, Fits, Barred;
  }

  lemma NotStepsAre(env: Env, node: QueryNode, ci: bool, d: DocId)
    requires node.Not?
    ensures var plan, steps := PlanNode(node.inner, ci), PlanNode(node, ci).steps;
            && steps == [Exclude(plan)] && !StepsNarrow(env, steps) && StepsFit(env, steps, d)
            && (StepsBar(env, steps, d) <==> d in Excluded(env, plan))
  {
    var plan := PlanNode(node.inner, ci);
    assert PlanNode(node, ci).steps == [Exclude(plan)];
    hide PlanNode, Excluded;
    assert StepDocs(env, Exclude(plan)).None?;
    assert [Exclude(plan)][0] == Exclude(plan);
  }

  /** What a negated tree takes away: its candidates that its verification confirms. */
  lemma ExcludedIff(env: Env, inner: QueryNode, ci: bool, d: DocId, s: string)
    requires UpToDate(env, d, s)
    ensures d in Excluded(env, PlanNode(inner, ci)) <==>
            && d in Simple(env, PlanNode(inner, ci))
            && (Says(inner) ==> Wanted(inner, ci, Utf8(s), env.engine))
  {
    VerificationMeans(inner, ci, Utf8(s), env.engine);
    DocumentOf(env, d, s);
    hide PlanNode, Says, Wanted, HasMatch, Simple, ContentOf, UpToDate, Utf8;
  }

  lemma NotSays(stop: set<Trigram>, node: QueryNode, ci: bool, s: string, engine: Engine)
    requires node.Not?
    ensures HasSteps(node, ci) && !Narrows(stop, node, ci) && Fits(stop, node, ci, s, engine)
    ensures Barred(stop, node, ci, s, engine) <==>
            Candidate(stop, node.inner, ci, s, engine) && (Says(node.inner) ==> Wanted(node.inner, ci, Utf8(s), engine))
  {
    hide Candidate, Says, Wanted;
  }

  lemma NotAgrees(env: Env, node: QueryNode, ci: bool, d: DocId, s: string)
    requires node.Not? && UpToDate(env, d, s) && Agrees(env, node.inner, ci, d, s)
    ensures Agrees(env, node, ci, d, s)
  {
    hide *;
    DocumentOf(env, d, s);
    NotStepsAre(env, node, ci, d);
    NotSays(env.idx.stopGrams, node, ci, s, env.engine);
    ExcludedIff(env, node.inner, ci, d, s);
    PlanCandidate(env, node.inner, ci, d, s);
    IsAgreed(env, node, ci, d, s);
  }

  lemma {:induction false} TreeAgrees(env: Env, node: QueryNode, ci: bool, d: DocId, s: string)
    requires Valid(env.idx) && UpToDate(env, d, s)
    ensures Agrees(env, node, ci, d, s)
    decreases node
  {
    DocumentOf(env, d, s);
    hide Valid, UpToDate, Agrees, ValidIds, ContentOf, GetDocument, Utf8, Tokens, Windows, TrigramsOf, TokensOf, Names;
    match node {
      case And(nodes) =>
        forall k | 0 <= k < |nodes|
          ensures Agrees(env, nodes[k], ci, d, s)
        {
          TreeAgrees(env, nodes[k], ci, d, s);
        }
        AndAgrees(env, node, ci, d, s);
      case Or(nodes) =>
        forall k | 0 <= k < |nodes|
          ensures Agrees(env, nodes[k], ci, d, s)
        {
          TreeAgrees(env, nodes[k], ci, d, s);
        }
        OrAgrees(env, node, ci, d, s);
      case Not(inner) =>
        TreeAgrees(env, inner, ci, d, s);
        NotAgrees(env, node, ci, d, s);
      case _ => LeafAgrees(env, node, ci, d, s);
    }
  }

  /**
    What a query tree narrows to, exactly: an up-to-date document is a candidate
    if and only if its text is one, by the stop-grams and the tree alone.
  */
  lemma CandidateIff(env: Env, node: QueryNode, ci: bool, d: DocId, s: string)
    requires Valid(env.idx) && UpToDate(env, d, s)
    ensures d in Simple(env, PlanNode(node, ci)) <==> Candidate(env.idx.stopGrams, node, ci, s, env.engine)
  {
    hide *;
    DocumentOf(env, d, s);
    TreeAgrees(env, node, ci, d, s);
    PlanCandidate(env, node, ci, d, s);
  }

  // ------------------------------------------------------------- the whole search

  /** What is left of a query with its filters: with any, negations always count. */
  ghost predicate QueryCandidate(env: Env, q: Query, d: DocId, s: string) {
    var stop := env.idx.stopGrams;
    if q.filters == NO_FILTER then Candidate(stop, q.root, q.caseInsensitive, s, env.engine)
    else
      && Passes(env, q.filters, d)
      && Fits(stop, q.root, q.caseInsensitive, s, env.engine) && !Barred(stop, q.root, q.caseInsensitive, s, env.engine)
  }

  lemma FilterStepIs(env: Env, f: FilterStep, d: DocId)
    requires d in ValidIds(env.idx)
    ensures StepDocs(env, Filter(f)).Some? && (Lets(env, Filter(f), d) <==> Passes(env, f, d))
  {
    FilterDocs(env, f);
    hide Passes, ValidIds;
  }

  lemma QueryStepsAre(q: Query)
    ensures PlanQuery(q).steps ==
            PlanNode(q.root, q.caseInsensitive).steps + if q.filters == NO_FILTER then [] else [Filter(q.filters)]
  {
    hide PlanNode;
  }

  /** Candidates of a whole query, filters and all. */
  lemma QueryCandidateIff(env: Env, q: Query, d: DocId, s: string)
    requires Valid(env.idx) && UpToDate(env, d, s)
    ensures d in Simple(env, PlanQuery(q)) <==> QueryCandidate(env, q, d, s)
  {
    var steps, tail := PlanNode(q.root, q.caseInsensitive).steps, [Filter(q.filters)];
    assert steps + [] == steps;
    hide *;
    DocumentOf(env, d, s);
    QueryStepsAre(q);
    TreeAgrees(env, q.root, q.caseInsensitive, d, s);
    SimpleIs(env, PlanQuery(q), d);
    FilterStepIs(env, q.filters, d);
    SingleStep(env, Filter(q.filters), d);
    StepsConcat(env, steps, tail, d);
    NarrowsBySteps(env, q, d, s);
  }

  lemma NarrowsBySteps(env: Env, q: Query, d: DocId, s: string)
    requires Agrees(env, q.root, q.caseInsensitive, d, s)
    ensures var steps, ci, stop := PlanNode(q.root, q.caseInsensitive).steps, q.caseInsensitive, env.idx.stopGrams;
            && (q.filters == NO_FILTER ==>
                (QueryCandidate(env, q, d, s) <==>
                  (StepsNarrow(env, steps) ==> StepsFit(env, steps, d) && !StepsBar(env, steps, d))))
            && (q.filters != NO_FILTER ==>
                (QueryCandidate(env, q, d, s) <==>
                  Passes(env, q.filters, d) && StepsFit(env, steps, d) && !StepsBar(env, steps, d)))
  {
    hide PlanNode, StepsNarrow, StepsFit, StepsBar, HasSteps, Narrows, Fits, Barred, Passes;
  }

  /**
    The search of an up-to-date document, exactly, for every query: it is
    reported if and only if its text is a candidate, it passes the filters, and
    the query shows something of it in the lines asked for.
  */
  lemma SearchedIff(env: Env, q: Query, d: DocId, s: string)
    requires Valid(env.idx) && UpToDate(env, d, s) && Says(q.root)
    requires PlanQuery(q).verification.Some? ==> NonEmptyTexts(PlanQuery(q).verification.value)
    ensures Searched(env, q, d) <==> QueryCandidate(env, q, d, s) && Matches.Shows(q, Utf8(s), env.engine)
  {
    hide *;
    DocumentOf(env, d, s);
    QueryCandidateIff(env, q, d, s);
    ReportedIffShown(env, q, d);
    IsSearched(env, q, d);
  }

  lemma IsSearched(env: Env, q: Query, d: DocId)
    ensures Searched(env, q, d) <==> d in Simple(env, PlanQuery(q)) && Report(env, PlanQuery(q), d).Some?
  {
    hide Simple, Report;
  }
}
