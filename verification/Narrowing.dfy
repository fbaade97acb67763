/**
  Which leaves of a query narrow soundly on an index that is up to date:
  exact phrases through trigrams and word positions, and regexes through the
  prefix every match must contain.
*/
module Narrowing {
  import opened Prelude
  import opened Text
  import opened Index
  import opened SegmentBuilder
  import opened Trigrams
  import opened Reader
  import opened Tokenizer
  import opened Phrases
  import opened Scanner
  import opened Verify
  import opened QueryTree
  import opened Planner
  import opened Matches
  import opened Executor
  import opened Search
  import RegexPrefix

  // ------------------------------------------------- an index that is up to date

  /** The index holds for the document what extraction takes from the text. */
  ghost predicate FromText(idx: Index, doc: Document, s: string) {
    && doc.segmentId in Active(idx)
    && TokensOf(idx, doc) == Names(Tokens(s))
    && (forall t: Token, k: nat :: (t, k) in Tokens(s) <==> Placed(Recall(idx, doc).data.positions, t, k))
    && Windows(Utf8(s)) - idx.stopGrams <= TrigramsOf(idx, doc) <= Windows(Utf8(s))
  }

  ghost predicate Placed(m: map<Token, seq<nat>>, t: Token, k: nat) {
    t in m && k in m[t]
  }

  /** A valid document whose file still has the text it was indexed with. */
  ghost predicate UpToDate(env: Env, d: DocId, s: string) {
    && d in ValidIds(env.idx)
    && ContentOf(env, d) == Some(Utf8(s))
    && GetDocument(env.idx, d).Some? && FromText(env.idx, GetDocument(env.idx, d).value, s)
  }

  /** What the extraction of a text is. */
  ghost predicate Extracts(f: ProcessedFile, s: string) {
    && WellFormedFile(f)
    && Expands(f.tokens, f.tokenPositions, Tokens(s), |Tokens(s)|)
    && Elements(f.trigrams) == Windows(Utf8(s))
  }

  lemma {:induction false} PlacedFirst(f: ProcessedFile, n: nat, i: nat)
    requires WellFormedFile(f) && i < n <= |f.tokenPositions|
    ensures Placed(GroupFirst(f, n), f.tokens[f.tokenPositions[i].0], f.tokenPositions[i].1)
    decreases n
  {
    if i < n - 1 {
      PlacedFirst(f, n - 1, i);
    }
  }

  lemma {:induction false} PlacedBack(f: ProcessedFile, n: nat, t: Token, k: nat) returns (i: nat)
    requires WellFormedFile(f) && n <= |f.tokenPositions| && Placed(GroupFirst(f, n), t, k)
    ensures i < n && f.tokens[f.tokenPositions[i].0] == t && f.tokenPositions[i].1 == k
    decreases n
  {
    var (id, pos) := f.tokenPositions[n - 1];
    if f.tokens[id] == t && pos == k {
      i := n - 1;
    } else {
      i := PlacedBack(f, n - 1, t, k);
    }
  }

  /** What a writer recorded for a file is what a search may count on. */
  lemma RecordedIsFromText(idx: Index, doc: Document, f: ProcessedFile, s: string)
    requires doc.segmentId in Active(idx) && Extracts(f, s)
    requires Recall(idx, doc).data == DataOf(f)
    requires Elements(f.trigrams) - idx.stopGrams <= TrigramsOf(idx, doc) <= Elements(f.trigrams)
    ensures FromText(idx, doc, s)
  {
    var l := Tokens(s);
    assert l[..|l|] == l;
    hide Tokens, Names, GroupFirst;
    forall t: Token, k: nat
      ensures (t, k) in l <==> Placed(Recall(idx, doc).data.positions, t, k)
    {
      if (t, k) in l {
        var i :| 0 <= i < |l| && l[i] == (t, k);
        PlacedFirst(f, |f.tokenPositions|, i);
      }
      if Placed(Recall(idx, doc).data.positions, t, k) {
        var i := PlacedBack(f, |f.tokenPositions|, t, k);
        assert l[i] == (t, k);
      }
    }
  }

  // ------------------------------------------------------------------- trigrams

  /** A document that has every trigram looked up is let through. */
  lemma TrigramsLet(env: Env, ts: seq<Trigram>, d: DocId, s: string)
    requires Valid(env.idx) && UpToDate(env, d, s) && Elements(ts) <= Windows(Utf8(s))
    ensures Lets(env, TrigramIntersect(ts), d)
  {
    var usable := NonStop(env.idx, ts);
    if usable != [] {
      hide Valid, Windows, Utf8, TrigramDocs, GetDocument, ContentOf, ValidIds, TrigramsOf, Tokens;
      TrigramDocsExact(env.idx, usable, d);
      var doc := GetDocument(env.idx, d).value;
      forall t | t in Elements(usable)
        ensures t in TrigramsOf(env.idx, doc)
      {
        assert t in ts && t in Elements(ts);
      }
    }
  }

  lemma BytesContain(s: string, t: string)
    requires Contains(s, t)
    ensures Contains(Utf8(s), Utf8(t))
  {
    hide Utf8;
    var i :| 0 <= i <= |s| && At(s, t, i);
    var a, b := s[..i], s[i + |t|..];
    assert s == a + (t + b);
    Utf8Concat(a, t + b);
    Utf8Concat(t, b);
    MiddleOccurs(Utf8(a), Utf8(t), Utf8(b));
  }

  lemma MiddleOccurs(a: seq<Byte>, t: seq<Byte>, b: seq<Byte>)
    ensures Contains(a + (t + b), t)
  {
    assert (a + (t + b))[|a|..|a| + |t|] == t;
    assert At(a + (t + b), t, |a|);
  }

  // -------------------------------------------------------------------- phrases

  /** Positions that are a list's hold a phrase exactly when its words stand in the list. */
  lemma HoldsIfStands(m: map<Token, seq<nat>>, l: seq<Positioned>, phrase: Reader.Phrase)
    requires forall t: Token, k: nat :: (t, k) in l <==> Placed(m, t, k)
    requires forall k :: 0 <= k < |phrase| ==> ToLower(phrase[k].0) == phrase[k].0
    ensures HasPhrase(m, phrase) <==> StandsIn(l, phrase)
  {
    hide ToLower;
    forall start: nat
      ensures PhraseAt(m, phrase, start) <==> StandsAt(l, phrase, start)
    {
      forall k | 0 <= k < |phrase|
        ensures WordAt(m, phrase, start, k) <==> (phrase[k].0, start + phrase[k].1 - phrase[0].1) in l
      {
        WordIsPlaced(m, l, phrase, start, k);
      }
    }
    hide PhraseAt, StandsAt;
  }

  lemma WordIsPlaced(m: map<Token, seq<nat>>, l: seq<Positioned>, phrase: Reader.Phrase, start: nat, k: nat)
    requires forall t: Token, k: nat :: (t, k) in l <==> Placed(m, t, k)
    requires k < |phrase| && ToLower(phrase[k].0) == phrase[k].0
    ensures WordAt(m, phrase, start, k) <==> (phrase[k].0, start + phrase[k].1 - phrase[0].1) in l
  {
    hide ToLower;
    var t, at := phrase[k].0, start + phrase[k].1 - phrase[0].1;
    if at >= 0 {
      assert (t, at) in l <==> Placed(m, t, at);
    } else {
      assert forall x :: x in l ==> x.1 >= 0;
    }
  }

  lemma LoweredToken(q: string, t: Token, k: nat)
    requires (t, k) in Tokens(q)
    ensures ToLower(t) == t
  {
    hide Tokens;
    TokensAreWords(q, t, k);
    var a: nat, b: nat :| WordIs(q, a, b, t, k);
    LowerTwice(q[a..b]);
  }

  /** The positional step lets a document through exactly when the words stand in its text. */
  lemma PhraseLetsIff(env: Env, text: string, d: DocId, s: string)
    requires Valid(env.idx) && UpToDate(env, d, s) && |Tokens(text)| >= 2
    ensures Lets(env, PositionalPhrase(Tokens(text)), d) <==> StandsIn(Tokens(s), Tokens(text))
  {
    var phrase := Tokens(text);
    var m := Recall(env.idx, GetDocument(env.idx, d).value).data.positions;
    hide Valid, GetDocument, HasPhrase, StandsIn, ContentOf, ValidIds, Tokens, Windows, PhraseDocs, ToLower;
    forall k | 0 <= k < |phrase|
      ensures ToLower(phrase[k].0) == phrase[k].0
    {
      assert (phrase[k].0, phrase[k].1) in phrase;
      LoweredToken(text, phrase[k].0, phrase[k].1);
    }
    HoldsIfStands(m, Tokens(s), phrase);
    PhraseDocsExact(env.idx, phrase, None, d);
    PositionalDocs(env, phrase);
  }

  lemma TwoWordPhrase(idx: Index, phrase: Reader.Phrase)
    ensures PhraseDocs(idx, phrase, None).Some? <==> |phrase| >= 2
  {
  }

  /** If the phrase has several words and occurs in the text, its words stand there one after the other. */
  ghost predicate PhraseFits(s: string, q: string) {
    |Tokens(q)| >= 2 && Contains(Utf8(s), Utf8(q)) ==> StandsIn(Tokens(s), Tokens(q))
  }

  lemma FoundIsContained(content: seq<Byte>, needle: seq<Byte>)
    ensures FirstFrom(content, needle, 0, |content|).Some? <==> Contains(content, needle)
  {
    var p := FirstFrom(content, needle, 0, |content|);
    if p.Some? {
      assert At(content, needle, p.value);
    }
    if i :| 0 <= i <= |content| && At(content, needle, i) {
      assert i + |needle| <= |content|;
    }
  }

  /** An exact phrase narrows soundly on a text if and only if its words stand in the text when it occurs there. */
  lemma PhraseLeafIff(env: Env, text: string, d: DocId, s: string)
    requires Valid(env.idx) && UpToDate(env, d, s)
    ensures LeafSound(env, QueryNode.Phrase(text), false, d, Utf8(s)) <==> PhraseFits(s, text)
  {
    var content, needle := Utf8(s), Utf8(text);
    var steps := PlanNode(QueryNode.Phrase(text), false).steps;
    FoundIsContained(content, needle);
    hide Valid, Utf8, UpToDate, Lets, Tokens, StandsIn, FirstFrom, Contains, Windows, QueryTrigrams;
    if Contains(content, needle) {
      NeedleTrigrams(content, needle);
      assert Lets(env, TrigramIntersect(QueryTrigrams(needle)), d) by { OwnTrigramsLet(env, needle, d, s); }
      if |Tokens(text)| >= 2 {
        PhraseLetsIff(env, text, d, s);
        LastIsPositional(text);
        assert steps[|steps| - 1] == PositionalPhrase(Tokens(text));
      }
    }
  }

  lemma OwnTrigramsLet(env: Env, needle: seq<Byte>, d: DocId, s: string)
    requires Valid(env.idx) && UpToDate(env, d, s) && Windows(needle) <= Windows(Utf8(s))
    ensures Lets(env, TrigramIntersect(QueryTrigrams(needle)), d)
  {
    hide *;
    TrigramsOfNeedle(needle);
    TrigramsLet(env, QueryTrigrams(needle), d, s);
  }

  lemma TrigramsOfNeedle(needle: seq<Byte>)
    ensures Elements(QueryTrigrams(needle)) == Windows(needle)
  {
  }

  lemma LastIsPositional(text: string)
    requires |Tokens(text)| >= 2
    ensures var steps := PlanNode(QueryNode.Phrase(text), false).steps;
            |steps| > 0 && steps[|steps| - 1] == PositionalPhrase(Tokens(text))
  {
    hide Tokens, QueryTrigrams, Utf8;
  }

  lemma PositionalDocs(env: Env, phrase: Reader.Phrase)
    requires |phrase| >= 2
    ensures StepDocs(env, PositionalPhrase(phrase)) == PhraseDocs(env.idx, phrase, None)
    ensures PhraseDocs(env.idx, phrase, None).Some?
  {
    TwoWordPhrase(env.idx, phrase);
    hide PhraseDocs;
  }

  /** What one step of a plan does not let through is no candidate. */
  lemma StepShutsOut(env: Env, plan: QueryPlan, k: nat, d: DocId)
    requires k < |plan.steps| && StepDocs(env, plan.steps[k]).Some? && d !in StepDocs(env, plan.steps[k]).value
    ensures d !in Simple(env, plan)
  {
    AllowedInStep(env, plan, |plan.steps|, k, d);
    hide StepDocs, ValidIds, Allowed;
  }

  // -------------------------------------------------------------------- regexes

  /** The engine matches a pattern only where the regex it prints is found. */
  ghost predicate EngineFinds(env: Env, r: RegexPrefix.Regex, s: string) {
    env.engine.isMatch(RegexPrefix.Print(r, |r.branches|), Utf8(s)) ==> RegexPrefix.Found(r, s)
  }

  /** A regex narrows soundly unless its pattern starts with two anchors. */
  lemma RegexLeaf(env: Env, r: RegexPrefix.Regex, d: DocId, s: string)
    requires Valid(env.idx) && UpToDate(env, d, s) && RegexPrefix.WellFormed(r) && EngineFinds(env, r, s)
    requires !RegexPrefix.DoubleCaret(RegexPrefix.Print(r, |r.branches|))
    ensures LeafSound(env, QueryNode.Regex(RegexPrefix.Print(r, |r.branches|)), false, d, Utf8(s))
  {
    var pattern := RegexPrefix.Print(r, |r.branches|);
    hide *;
    RegexPlan(env, pattern, Utf8(s));
    if Accepts(PlanNode(QueryNode.Regex(pattern), false).verification, Utf8(s), env.engine) {
      Finds(env, r, s);
      RegexStepsLet(env, r, d, s);
    }
    IsLeafSound(env, QueryNode.Regex(pattern), false, d, Utf8(s));
  }

  lemma RegexPlan(env: Env, pattern: string, content: seq<Byte>)
    ensures PlanNode(QueryNode.Regex(pattern), false).steps == RegexSteps(pattern, false)
    ensures Accepts(PlanNode(QueryNode.Regex(pattern), false).verification, content, env.engine) ==>
            env.engine.isMatch(pattern, content)
  {
    hide RegexSteps;
  }

  lemma IsLeafSound(env: Env, node: QueryNode, ci: bool, d: DocId, content: seq<Byte>)
    requires Accepts(PlanNode(node, ci).verification, content, env.engine) ==> LetsAll(env, PlanNode(node, ci).steps, d)
    ensures LeafSound(env, node, ci, d, content)
  {
  }

  lemma RegexStepsLet(env: Env, r: RegexPrefix.Regex, d: DocId, s: string)
    requires Valid(env.idx) && UpToDate(env, d, s) && RegexPrefix.WellFormed(r) && RegexPrefix.Found(r, s)
    requires !RegexPrefix.DoubleCaret(RegexPrefix.Print(r, |r.branches|))
    ensures LetsAll(env, RegexSteps(RegexPrefix.Print(r, |r.branches|), false), d)
  {
    var pattern := RegexPrefix.Print(r, |r.branches|);
    var prefix := RegexPrefix.ExtractPrefix(pattern);
    hide *;
    RegexStepsAre(pattern);
    LetsNothing(env, d);
    if prefix.Some? {
      RegexLets(env, r, prefix.value, d, s);
      OneStep(env, TrigramIntersect(QueryTrigrams(Utf8(prefix.value))), d);
    }
  }

  lemma RegexStepsAre(pattern: string)
    ensures var prefix := RegexPrefix.ExtractPrefix(pattern);
            RegexSteps(pattern, false) ==
            if prefix.None? || QueryTrigrams(Utf8(prefix.value)) == [] then []
            else [TrigramIntersect(QueryTrigrams(Utf8(prefix.value)))]
  {
    hide QueryTrigrams, Utf8, RegexPrefix.ExtractPrefix;
  }

  lemma OneStep(env: Env, step: PlanStep, d: DocId)
    requires Lets(env, step, d)
    ensures LetsAll(env, [step], d)
  {
    hide Lets;
  }

  lemma Finds(env: Env, r: RegexPrefix.Regex, s: string)
    requires EngineFinds(env, r, s) && env.engine.isMatch(RegexPrefix.Print(r, |r.branches|), Utf8(s))
    ensures RegexPrefix.Found(r, s)
  {
  }

  lemma RegexLets(env: Env, r: RegexPrefix.Regex, prefix: string, d: DocId, s: string)
    requires Valid(env.idx) && UpToDate(env, d, s) && RegexPrefix.WellFormed(r) && RegexPrefix.Found(r, s)
    requires !RegexPrefix.DoubleCaret(RegexPrefix.Print(r, |r.branches|))
    requires RegexPrefix.ExtractPrefix(RegexPrefix.Print(r, |r.branches|)) == Some(prefix)
    ensures Lets(env, TrigramIntersect(QueryTrigrams(Utf8(prefix))), d)
  {
    hide *;
    RegexPrefix.PrefixRequired(r, s);
    BytesContain(s, prefix);
    NeedleTrigrams(Utf8(s), Utf8(prefix));
    TrigramsLet(env, QueryTrigrams(Utf8(prefix)), d, s);
  }

  // ----------------------------------------------------------------- bare words

  /**
    What the step for a bare word lets through, exactly: documents with the word
    as a token, or with all its usable trigrams in the very same case.
  */
  lemma WordLetsIff(env: Env, token: Token, subTokens: set<Token>, ts: seq<Trigram>, d: DocId, s: string)
    requires Valid(env.idx) && UpToDate(env, d, s) && NonStop(env.idx, ts) != []
    ensures var doc := GetDocument(env.idx, d).value;
            Lets(env, TokenOrTrigram(token, subTokens, ts), d) <==>
            ToLower(token) in Names(Tokens(s)) || Elements(NonStop(env.idx, ts)) <= TrigramsOf(env.idx, doc)
  {
    hide Valid, GetDocument, ContentOf, ValidIds, Tokens, Windows, TrigramDocs, TokenDocs, TrigramsOf, NonStop,
        ToLower, Names;
    TokenDocsExact(env.idx, token, d);
    TrigramDocsExact(env.idx, NonStop(env.idx, ts), d);
  }

  /** What one step alone does not let through is no candidate. */
  lemma OnlyStep(env: Env, plan: QueryPlan, step: PlanStep, d: DocId)
    requires plan.steps == [step] && !step.Exclude? && StepDocs(env, step).Some? && !Lets(env, step, d)
    ensures d !in Simple(env, plan)
  {
    hide StepDocs;
    assert Allowed(env, plan, 0) == None;
    assert Allowed(env, plan, 1) == StepDocs(env, step);
  }

  // -------------------------------------------------------- queries as a whole

  /** Trees of exact phrases and regexes narrowing can be trusted with. */
  ghost predicate Supported(env: Env, node: QueryNode, s: string) {
    match node
    case Phrase(text) => PhraseFits(s, text)
    case Regex(pattern) =>
      exists r :: RegexPrefix.WellFormed(r) && pattern == RegexPrefix.Print(r, |r.branches|)
                  && !RegexPrefix.DoubleCaret(pattern) && EngineFinds(env, r, s)
    case And(nodes) => forall k :: 0 <= k < |nodes| ==> Supported(env, nodes[k], s)
    case Or(nodes) => forall k :: 0 <= k < |nodes| ==>
                        Supported(env, nodes[k], s) && (Says(nodes[k]) ==> PlanNode(nodes[k], false).steps != [])
    case Not(inner) => Says(inner)
    case Empty => true
    case _ => false
  }

  lemma {:induction false} SupportedIsTrusted(env: Env, node: QueryNode, d: DocId, s: string)
    requires Valid(env.idx) && UpToDate(env, d, s) && Supported(env, node, s)
    ensures Trusted(env, node, false, d, Utf8(s))
    decreases node
  {
    hide Valid, UpToDate, LeafSound, PlanNode, PhraseFits, RegexPrefix.WellFormed, RegexPrefix.Print;
    match node {
      case Phrase(text) => PhraseLeafIff(env, text, d, s);
      case Regex(pattern) =>
        var r :| RegexPrefix.WellFormed(r) && pattern == RegexPrefix.Print(r, |r.branches|)
                 && !RegexPrefix.DoubleCaret(pattern) && EngineFinds(env, r, s);
        RegexLeaf(env, r, d, s);
      case And(nodes) =>
        forall k | 0 <= k < |nodes|
          ensures Trusted(env, nodes[k], false, d, Utf8(s))
        {
          SupportedIsTrusted(env, nodes[k], d, s);
        }
      case Or(nodes) =>
        forall k | 0 <= k < |nodes|
          ensures Trusted(env, nodes[k], false, d, Utf8(s))
        {
          SupportedIsTrusted(env, nodes[k], d, s);
        }
      case Empty => assert LeafSound(env, node, false, d, Utf8(s)) by { EmptyLeaf(env, d, Utf8(s)); }
      case _ =>
    }
  }

  lemma EmptyLeaf(env: Env, d: DocId, content: seq<Byte>)
    ensures LeafSound(env, QueryNode.Empty, false, d, content)
  {
  }

  // ------------------------------------------------------------- the whole search

  /** A valid document that passes the filters, and shows something in the lines asked for. */
  ghost predicate LiveMatch(env: Env, q: Query, p: Path) {
    exists d :: d in ValidIds(env.idx) && PathOf(env, d) == Some(p)
                && (q.filters != NO_FILTER ==> Passes(env, q.filters, d))
                && ContentOf(env, d).Some? && Shows(q, ContentOf(env, d).value, env.engine)
  }

  /** The document is up to date, and the query is one narrowing can be trusted with on it. */
  ghost predicate Served(env: Env, q: Query, d: DocId) {
    exists s :: UpToDate(env, d, s) && Supported(env, q.root, s) && ComparableOn(env, q, Utf8(s))
  }

  ghost predicate ComparableOn(env: Env, q: Query, content: seq<Byte>) {
    var v := PlanNode(q.root, false).verification;
    v.Some? ==> Comparable(content, v.value, env.engine) && NonEmptyTexts(v.value)
  }

  lemma ServedIsTrusted(env: Env, q: Query, d: DocId)
    requires Valid(env.idx) && !q.caseInsensitive && Served(env, q, d)
    ensures TrustedWith(env, q, d)
  {
    hide Valid, Supported, Comparable, PlanNode, Says, Utf8, FromText, ContentOf, ValidIds, GetDocument, Trusted;
    var s :| UpToDate(env, d, s) && Supported(env, q.root, s) && ComparableOn(env, q, Utf8(s));
    SupportedIsTrusted(env, q.root, d, s);
  }

  /**
    Where the documents of a path are up to date, a case-sensitive search for a
    tree of exact phrases and regexes reports the path exactly when a live file
    there shows something in the lines asked for.
  */
  lemma SearchIsExact(env: Env, q: Query, p: Path)
    requires Valid(env.idx) && PathCovered(env, p)
    requires !q.caseInsensitive && Says(q.root)
    requires forall d :: d in ValidIds(env.idx) && PathOf(env, d) == Some(p) && p in env.files ==> Served(env, q, d)
    ensures SearchFinds(env, q, p) <==> LiveMatch(env, q, p)
  {
    hide Valid, PathCovered, Says, PlanNode, ValidIds, Report, Simple, Passes, PathOf, ContentOf, Shows, TrustedWith,
        Served;
    forall d | d in ValidIds(env.idx) && PathOf(env, d) == Some(p) && p in env.files
      ensures TrustedWith(env, q, d)
      ensures Report(env, PlanQuery(q), d).Some? <==>
              ContentOf(env, d).Some? && Shows(q, ContentOf(env, d).value, env.engine)
    {
      ServedIsTrusted(env, q, d);
      ServedTexts(env, q, d);
      ReportedIffShown(env, q, d);
    }
    VerificationMeans(q.root, false, [], env.engine);
    SearchIsGrep(env, q, p);
    hide SearchFinds;
    if Search.ScanFinds(env, q, p) {
      var d :| Search.Scanned(env, q, d) && PathOf(env, d) == Some(p);
      ReportedIsRead(env, q, d, p);
      assert LiveMatch(env, q, p);
    }
    if LiveMatch(env, q, p) {
      var d :| d in ValidIds(env.idx) && PathOf(env, d) == Some(p)
               && (q.filters != NO_FILTER ==> Passes(env, q.filters, d))
               && ContentOf(env, d).Some? && Shows(q, ContentOf(env, d).value, env.engine);
      ContentIsRead(env, d, p);
      assert Search.Scanned(env, q, d);
    }
  }

  lemma ServedTexts(env: Env, q: Query, d: DocId)
    requires Served(env, q, d) && !q.caseInsensitive
    ensures PlanQuery(q).verification.Some? ==> NonEmptyTexts(PlanQuery(q).verification.value)
  {
    hide PlanNode, UpToDate, Supported, Comparable, NonEmptyTexts, Utf8;
  }

  lemma ContentIsRead(env: Env, d: DocId, p: Path)
    requires PathOf(env, d) == Some(p)
    ensures ContentOf(env, d).Some? <==> p in env.files
  {
    hide PathOf;
  }
}
