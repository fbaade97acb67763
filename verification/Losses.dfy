/**
  Where narrowing loses files that the query wants, exactly (src/query/planner.rs:
  318-461, src/query/executor.rs:714-742): phrases that start or end with a word,
  an Or with a branch too short to narrow, and a negated term that only filters.
*/
module Losses {
  import opened Prelude
  import opened Text
  import opened Index
  import opened SegmentBuilder
  import opened DeltaSafety
  import opened Trigrams
  import opened Reader
  import opened Tokenizer
  import opened Phrases
  import opened Verify
  import opened QueryTree
  import opened Planner
  import opened Executor
  import opened Search
  import opened Narrowing
  import opened Additions
  import DiskSearch

  /** Whatever up-to-date index is searched, every valid document the tree wants is a candidate. */
  ghost predicate NeverLoses(node: QueryNode) {
    forall env: Env, d: DocId, s: string ::
      Valid(env.idx) && UpToDate(env, d, s) && Wanted(node, false, Utf8(s), env.engine) ==>
        d in Simple(env, PlanNode(node, false))
  }

  // ----------------------------------------------------- an index of one document

  lemma {:induction false} SomeExpansion(l: seq<Positioned>, n: nat)
      returns (tokens: seq<Token>, positions: seq<(nat, nat)>)
    requires n <= |l|
    ensures Expands(tokens, positions, l, n)
  {
    tokens, positions := [], [];
    if n > 0 {
      tokens, positions := SomeExpansion(l, n - 1);
      var (t, pos) := l[n - 1];
      assert l[..n] == l[..n - 1] + [l[n - 1]];
      NamesSnoc(l[..n - 1], l[n - 1]);
      hide Names;
      if t in tokens {
        var id :| 0 <= id < |tokens| && tokens[id] == t;
        assert t in Elements(tokens);
        positions := positions + [(id, pos)];
      } else {
        positions := positions + [(|tokens|, pos)];
        assert Elements(tokens + [t]) == Elements(tokens) + {t};
        tokens := tokens + [t];
      }
    }
  }

  lemma {:induction false} SomeList(s: set<Trigram>) returns (list: seq<Trigram>)
    ensures Distinct(list) && Elements(list) == s
    decreases s
  {
    list := [];
    if s != {} {
      var t :| t in s;
      list := SomeList(s - {t});
      assert Elements(list + [t]) == Elements(list) + {t};
      assert t !in Elements(list);
      list := list + [t];
    }
  }

  /** Every text has an extraction. */
  lemma SomeExtraction(p: Path, s: string) returns (f: ProcessedFile)
    ensures Extracts(f, s) && f.relPath == p
  {
    var tokens, positions := SomeExpansion(Tokens(s), |Tokens(s)|);
    var trigrams := SomeList(Windows(Utf8(s)));
    f := ProcessedFile(p, 0, |Utf8(s)|, 0, false, trigrams, tokens, [0], positions);
    hide Tokens, Windows, Utf8, Names;
  }

  function OneFile(f: ProcessedFile): Index
    requires WellFormedFile(f)
  {
    Updated(EMPTY_INDEX, [], [f])
  }

  function EnvOn(idx: Index, p: Path, s: string, engine: Engine): Env {
    Env(idx, map[p := Utf8(s)], engine, (filters, path) => true)
  }

  lemma OneFileLive(f: ProcessedFile)
    requires WellFormedFile(f)
    ensures var u, p := OneFile(f), f.relPath;
            && Valid(u) && LiveDoc(u, p).Some? && u.stopGrams == {}
            && Recall(u, LiveDoc(u, p).value).data == DataOf(f)
            && TrigramsOf(u, LiveDoc(u, p).value) == Elements(f.trigrams)
  {
    var u, p := OneFile(f), f.relPath;
    assert AllWellFormed([f]);
    assert u.stopGrams == {} by { hide LiveDoc, WellFormedFile, AllWellFormed; }
    hide Updated, WellFormedFile, Valid, LiveDoc, Recall, TrigramsOf, DataOf;
    EmptyIndexValid();
    OneMoreFile(EMPTY_INDEX, f);
    DeltaMeaning(EMPTY_INDEX, [], [f], p);
    DeltaGrams(EMPTY_INDEX, [], [f], p);
    assert FileFor([f], 1, p) == Some(0);
    KnownIffLive(u, p);
  }

  /** The index of one text is up to date for it. */
  lemma OneFileUpToDate(f: ProcessedFile, s: string, engine: Engine) returns (d: DocId)
    requires Extracts(f, s)
    ensures var env := EnvOn(OneFile(f), f.relPath, s, engine);
            && Valid(env.idx) && UpToDate(env, d, s) && env.idx.stopGrams == {}
            && GetDocument(env.idx, d).Some?
            && TrigramsOf(env.idx, GetDocument(env.idx, d).value) == Elements(f.trigrams)
  {
    var u, p := OneFile(f), f.relPath;
    var env := EnvOn(u, p, s, engine);
    assert env.files[p] == Utf8(s) && env.idx == u;
    assert WellFormedFile(f);
    hide *;
    OneFileLive(f);
    d := DiskSearch.LiveIsFound(u, p);
    DiskSearch.PathOfLive(env, d, p);
    DiskSearch.SegmentOfLive(u, p);
    assert Elements(f.trigrams) - u.stopGrams <= TrigramsOf(u, LiveDoc(u, p).value);
    RecordedIsFromText(u, LiveDoc(u, p).value, f, s);
    DiskSearch.IsUpToDate(env, d, s, LiveDoc(u, p).value);
  }

  // ----------------------------------------------------------------------- phrases

  /** A phrase is wanted of every text it is part of. */
  lemma FoundWithin(a: string, text: string, b: string, engine: Engine)
    ensures Contains(Utf8(a + (text + b)), Utf8(text))
    ensures Wanted(QueryNode.Phrase(text), false, Utf8(a + (text + b)), engine)
  {
    var content := Utf8(a + (text + b));
    Utf8Concat(a, text + b);
    Utf8Concat(text, b);
    MiddleOccurs(Utf8(a), Utf8(text), Utf8(b));
    FoundIsContained(content, Utf8(text));
    hide Utf8;
  }

  lemma FoundInItself(text: string, engine: Engine)
    ensures Wanted(QueryNode.Phrase(text), false, Utf8(text), engine)
  {
    assert "" + (text + "") == text;
    hide *;
    FoundWithin("", text, "", engine);
  }

  lemma WantedIsContained(env: Env, text: string, s: string)
    ensures Wanted(QueryNode.Phrase(text), false, Utf8(s), env.engine) <==> Contains(Utf8(s), Utf8(text))
  {
    FoundIsContained(Utf8(s), Utf8(text));
    hide Utf8;
  }

  /**
    A file with an occurrence of the phrase is a candidate if and only if the
    words of the phrase stand one after the other among the words of the file.
  */
  lemma PhraseCandidateIff(env: Env, text: string, d: DocId, s: string)
    requires Valid(env.idx) && UpToDate(env, d, s) && Contains(Utf8(s), Utf8(text))
    ensures d in Simple(env, PlanNode(QueryNode.Phrase(text), false)) <==>
            |Tokens(text)| < 2 || StandsIn(Tokens(s), Tokens(text))
  {
    var plan := PlanNode(QueryNode.Phrase(text), false);
    hide *;
    FitsIff(s, text);
    if PhraseFits(s, text) {
      PhraseIsSupported(env, text, s);
      WantedIsContained(env, text, s);
      LetThrough(env, QueryNode.Phrase(text), d, s);
    } else {
      LastIsPositional(text);
      PositionalDocs(env, Tokens(text));
      PhraseLetsIff(env, text, d, s);
      NotLet(env, PositionalPhrase(Tokens(text)), d);
      StepShutsOut(env, plan, |plan.steps| - 1, d);
    }
  }

  lemma FitsIff(s: string, text: string)
    requires Contains(Utf8(s), Utf8(text))
    ensures PhraseFits(s, text) <==> |Tokens(text)| < 2 || StandsIn(Tokens(s), Tokens(text))
  {
    hide Contains, Utf8, Tokens, StandsIn;
  }

  lemma PhraseIsSupported(env: Env, text: string, s: string)
    requires PhraseFits(s, text)
    ensures Supported(env, QueryNode.Phrase(text), s)
  {
    hide PhraseFits;
  }

  lemma NotLet(env: Env, step: PlanStep, d: DocId)
    requires step.PositionalPhrase? && !Lets(env, step, d)
    ensures StepDocs(env, step).Some? && d !in StepDocs(env, step).value
  {
    hide StepDocs;
  }

  /** Where no word at an edge of the phrase is indexed, its words stand wherever it occurs. */
  lemma InnerStands(s: string, text: string)
    requires Tokens(text) != [] && Contains(Utf8(s), Utf8(text))
    requires !StartsWithToken(text) && !EndsWithToken(text)
    ensures StandsIn(Tokens(s), Tokens(text))
  {
    assert text != "" by { NoTokens(text); }
    hide *;
    var o := CharsContain(s, text);
    IsWhole(s, text, o);
    WholeStands(s, text, o);
  }

  lemma NoTokens(text: string)
    ensures text == "" ==> Tokens(text) == []
  {
  }

  lemma IsWhole(s: string, text: string, o: nat)
    requires At(s, text, o) && !StartsWithToken(text) && !EndsWithToken(text)
    ensures Whole(s, text, o)
  {
    hide StartsWithToken, EndsWithToken;
  }

  /** A file in which the words of a phrase do not stand, though it occurs, is lost. */
  lemma PhraseLost(a: string, text: string, b: string, engine: Engine)
    requires |Tokens(text)| >= 2 && !StandsIn(Tokens(a + (text + b)), Tokens(text))
    ensures !NeverLoses(QueryNode.Phrase(text))
  {
    var s := a + (text + b);
    assert forall idx, p :: EnvOn(idx, p, s, engine).engine == engine;
    hide *;
    var f := SomeExtraction("a", s);
    ExtractedFrom(f, s);
    var d := OneFileUpToDate(f, s, engine);
    FoundWithin(a, text, b, engine);
    PhraseCandidateIff(EnvOn(OneFile(f), f.relPath, s, engine), text, d, s);
    IsLost(QueryNode.Phrase(text), EnvOn(OneFile(f), f.relPath, s, engine), d, s, engine);
  }

  lemma IsLost(node: QueryNode, env: Env, d: DocId, s: string, engine: Engine)
    requires Valid(env.idx) && UpToDate(env, d, s) && env.engine == engine && Wanted(node, false, Utf8(s), engine)
    requires d !in Simple(env, PlanNode(node, false))
    ensures !NeverLoses(node)
  {
    hide Valid, UpToDate, Wanted, Utf8, Simple, PlanNode;
  }

  /**
    An exact phrase never loses a file if and only if it has fewer than two
    indexed words, or neither starts nor ends with one: a word at an edge may be
    part of a longer word of the file.
  */
  lemma PhraseNeverLosesIff(text: string, engine: Engine)
    ensures NeverLoses(QueryNode.Phrase(text)) <==>
            |Tokens(text)| < 2 || (!StartsWithToken(text) && !EndsWithToken(text))
  {
    if |Tokens(text)| >= 2 && StartsWithToken(text) {
      EdgeLetters(text);
      StartJoined(text, 'X');
      assert "X" + (text + "") == ['X'] + text;
      hide *;
      PhraseLost("X", text, "", engine);
    } else if |Tokens(text)| >= 2 && EndsWithToken(text) {
      EdgeLetters(text);
      EndJoined(text, 'x');
      assert "" + (text + "x") == text + ['x'];
      hide *;
      PhraseLost("", text, "x", engine);
    } else {
      hide Tokens, Utf8, PlanNode, Simple, Valid, UpToDate, Wanted, StartsWithToken, EndsWithToken;
      forall env: Env, d: DocId, s: string |
        Valid(env.idx) && UpToDate(env, d, s) && Wanted(QueryNode.Phrase(text), false, Utf8(s), env.engine)
        ensures d in Simple(env, PlanNode(QueryNode.Phrase(text), false))
      {
        WantedIsContained(env, text, s);
        if |Tokens(text)| >= 2 {
          InnerStands(s, text);
        }
        PhraseCandidateIff(env, text, d, s);
      }
    }
  }

  lemma EdgeLetters(text: string)
    ensures StartsWithToken(text) ==> JoinsStart('X', text)
    ensures EndsWithToken(text) ==> JoinsEnd(text, 'x')
  {
  }

  /** For one: the text "xfoo bar" has the phrase "foo bar", and a search for it passes the file over. */
  lemma XfooBarLost(f: ProcessedFile, engine: Engine) returns (d: DocId)
    requires Extracts(f, "xfoo bar")
    ensures var env := EnvOn(OneFile(f), f.relPath, "xfoo bar", engine);
            && UpToDate(env, d, "xfoo bar") && Wanted(QueryNode.Phrase("foo bar"), false, Utf8("xfoo bar"), engine)
            && d !in Simple(env, PlanNode(QueryNode.Phrase("foo bar"), false))
  {
    hide *;
    FooBar();
    WordStarts("foo bar", 3);
    TwoWords("foo bar", 3, 4, 7);
    StartJoined("foo bar", 'x');
    ExtractedFrom(f, "xfoo bar");
    d := OneFileUpToDate(f, "xfoo bar", engine);
    FoundWithin("x", "foo bar", "", engine);
    PhraseCandidateIff(EnvOn(OneFile(f), f.relPath, "xfoo bar", engine), "foo bar", d, "xfoo bar");
  }

  lemma FooBar()
    ensures "x" + ("foo bar" + "") == "xfoo bar" == ['x'] + "foo bar"
    ensures IsWord("foo bar", 0, 3) && IsWord("foo bar", 4, 7) && Indexable(3) && JoinsStart('x', "foo bar")
  {
  }

  lemma TwoWords(q: string, b: nat, a: nat, c: nat)
    requires IsWord(q, 0, b) && IsWord(q, a, c) && 2 <= b <= a && a + 2 <= c <= 9
    ensures Indexable(b) && |Tokens(q)| >= 2
  {
    assert Indexable(b) && Indexable(c - a);
    WordBegins(q, 0, b);
    WordBegins(q, a, c);
    hide *;
    EdgeToken(q, 0, b);
    EdgeToken(q, a, c);
    IndexGrows(q, 0, a);
    TwoMembers(Tokens(q), (ToLower(q[0..b]), WordIndex(q, 0)), (ToLower(q[a..c]), WordIndex(q, a)));
  }

  lemma TwoMembers(l: seq<Positioned>, x: Positioned, y: Positioned)
    requires x in l && y in l && x.1 != y.1
    ensures |l| >= 2
  {
    var i :| 0 <= i < |l| && l[i] == x;
    var j :| 0 <= j < |l| && l[j] == y;
    assert i != j;
  }

  lemma PhrasePlan(text: string)
    requires |Tokens(text)| < 2
    ensures PlanNode(QueryNode.Phrase(text), false).steps ==
            if |Utf8(text)| < 3 then [] else [TrigramIntersect(QueryTrigrams(Utf8(text)))]
  {
    hide Tokens, Utf8, QueryTrigrams;
  }

  lemma NoWindows(c: seq<Byte>)
    requires |c| < 3
    ensures Windows(c) == {}
  {
  }

  /** A document without trigrams passes no trigram step. */
  lemma NoTrigramsNoStep(env: Env, needle: seq<Byte>, d: DocId, plan: QueryPlan)
    requires Valid(env.idx) && env.idx.stopGrams == {} && |needle| >= 3
    requires GetDocument(env.idx, d).Some? && TrigramsOf(env.idx, GetDocument(env.idx, d).value) == {}
    requires plan.steps == [TrigramIntersect(QueryTrigrams(needle))]
    ensures d !in Simple(env, plan)
  {
    var ts := QueryTrigrams(needle);
    var usable := NonStop(env.idx, ts);
    assert ts[0] in ts && ts[0] in usable;
    hide Valid, GetDocument, TrigramsOf, QueryTrigrams, NonStop, TrigramDocs;
    TrigramDocsExact(env.idx, usable, d);
    assert ts[0] in Elements(usable);
    OnlyStep(env, plan, TrigramIntersect(ts), d);
  }

  // ----------------------------------------------------------------------- Or

  function OrOf(texts: seq<string>): QueryNode {
    QueryNode.Or(seq(|texts|, i requires 0 <= i < |texts| => QueryNode.Phrase(texts[i])))
  }

  lemma BranchIs(texts: seq<string>, k: nat)
    requires k < |texts|
    ensures Nodes(OrOf(texts)) == OrOf(texts).nodes && |OrOf(texts).nodes| == |texts|
    ensures OrOf(texts).nodes[k] == QueryNode.Phrase(texts[k])
  {
  }

  /** The plans of an Or are those of its branches that have steps. */
  lemma {:induction false} PlansFrom(node: QueryNode, n: nat, plan: QueryPlan)
    requires n <= |Nodes(node)| && plan in SubPlans(node, n, false)
    ensures exists k :: 0 <= k < n && plan == PlanNode(Nodes(node)[k], false) && plan.steps != []
  {
    hide PlanNode;
    if n > 0 && plan in SubPlans(node, n - 1, false) {
      PlansFrom(node, n - 1, plan);
    }
  }

  lemma OrSteps(texts: seq<string>)
    ensures var plans := SubPlans(OrOf(texts), |Nodes(OrOf(texts))|, false);
            PlanNode(OrOf(texts), false).steps == if plans == [] then [] else [Union(plans)]
  {
    assert Nodes(OrOf(texts)) == OrOf(texts).nodes;
    hide SubPlans;
  }

  lemma PlanOfBranch(texts: seq<string>, plan: QueryPlan) returns (k: nat)
    requires plan in SubPlans(OrOf(texts), |Nodes(OrOf(texts))|, false)
    ensures k < |texts| && plan == PlanNode(QueryNode.Phrase(texts[k]), false) && plan.steps != []
  {
    var node := OrOf(texts);
    assert |Nodes(node)| == |texts|;
    PlansFrom(node, |Nodes(node)|, plan);
    hide PlanNode, SubPlans;
    k :| 0 <= k < |Nodes(node)| && plan == PlanNode(Nodes(node)[k], false) && plan.steps != [];
    BranchIs(texts, k);
  }

  lemma {:induction false} InNoPart(env: Env, step: PlanStep, n: nat, d: DocId)
    requires n <= |PlansIn(step)| && forall k :: 0 <= k < |PlansIn(step)| ==> d !in Simple(env, PlansIn(step)[k])
    ensures d !in UnionOf(env, step, n)
  {
    hide Simple;
    if n > 0 {
      InNoPart(env, step, n - 1, d);
    }
  }

  lemma NotInUnion(env: Env, outer: QueryPlan, plans: seq<QueryPlan>, d: DocId)
    requires outer.steps == [Union(plans)] && forall plan :: plan in plans ==> d !in Simple(env, plan)
    ensures d !in Simple(env, outer)
  {
    hide Simple;
    InNoPart(env, Union(plans), |plans|, d);
    assert StepDocs(env, Union(plans)) == Some(UnionOf(env, Union(plans), |plans|));
    hide StepDocs, UnionOf;
    OnlyStep(env, outer, Union(plans), d);
  }

  /** A file that is just the short phrase is wanted and lost. */
  lemma ShortBranchLost(texts: seq<string>, i: nat, j: nat, engine: Engine)
    requires forall k :: 0 <= k < |texts| ==> |Tokens(texts[k])| < 2
    requires i < |texts| && j < |texts| && |Utf8(texts[i])| < 3 && |Utf8(texts[j])| >= 3
    ensures !NeverLoses(OrOf(texts))
  {
    var short := texts[i];
    NoWindows(Utf8(short));
    hide *;
    var f := SomeExtraction("a", short);
    ExtractedFrom(f, short);
    var d := OneFileUpToDate(f, short, engine);
    var env := EnvOn(OneFile(f), f.relPath, short, engine);
    FoundInItself(short, engine);
    OrWanted(texts, i, engine);
    ShortMissed(env, texts, j, d);
    IsLost(OrOf(texts), env, d, short, engine);
  }

  lemma ExtractedFrom(f: ProcessedFile, s: string)
    requires Extracts(f, s)
    ensures WellFormedFile(f) && Elements(f.trigrams) == Windows(Utf8(s))
  {
  }

  lemma OrWanted(texts: seq<string>, i: nat, engine: Engine)
    requires i < |texts| && Wanted(QueryNode.Phrase(texts[i]), false, Utf8(texts[i]), engine)
    ensures Wanted(OrOf(texts), false, Utf8(texts[i]), engine)
  {
    BranchIs(texts, i);
    assert Says(OrOf(texts).nodes[i]);
    hide HasMatch, Utf8;
  }

  lemma ShortMissed(env: Env, texts: seq<string>, j: nat, d: DocId)
    requires forall k :: 0 <= k < |texts| ==> |Tokens(texts[k])| < 2
    requires j < |texts| && |Utf8(texts[j])| >= 3
    requires Valid(env.idx) && env.idx.stopGrams == {}
    requires GetDocument(env.idx, d).Some? && TrigramsOf(env.idx, GetDocument(env.idx, d).value) == {}
    ensures d !in Simple(env, PlanNode(OrOf(texts), false))
  {
    var node := OrOf(texts);
    var plans := SubPlans(node, |Nodes(node)|, false);
    BranchIs(texts, j);
    hide *;
    PhrasePlan(texts[j]);
    PlanIn(node, |Nodes(node)|, false, j);
    OrSteps(texts);
    forall plan | plan in plans
      ensures d !in Simple(env, plan)
    {
      var k := PlanOfBranch(texts, plan);
      PhrasePlan(texts[k]);
      NoTrigramsNoStep(env, Utf8(texts[k]), d, plan);
    }
    NotInUnion(env, PlanNode(node, false), plans, d);
  }

  /** Two words take five bytes at least, so a short phrase has no step at all. */
  lemma ShortPlan(short: string)
    requires |Utf8(short)| < 3
    ensures PlanNode(QueryNode.Phrase(short), false).steps == []
  {
    FewTokens(short);
    PhrasePlan(short);
  }

  lemma {:induction false} AtLeastOneByteEach(s: string)
    ensures |s| <= |Utf8(s)|
    decreases |s|
  {
    if s != "" {
      AtLeastOneByteEach(s[..|s| - 1]);
    }
  }

  lemma TwoTokensLong(s: string)
    requires |Tokens(s)| >= 2
    ensures |s| >= 3
  {
    var l := Tokens(s);
    TokensIncrease(s);
    hide Utf8, Tokens;
    var (t, k) := l[0];
    var (u, m) := l[1];
    assert (t, k) in l && (u, m) in l;
    TokensAreWords(s, t, k);
    TokensAreWords(s, u, m);
    var a: nat, b: nat :| WordIs(s, a, b, t, k);
    var e: nat, g: nat :| WordIs(s, e, g, u, m);
    assert k != m;
    assert a != e;
  }

  lemma FewTokens(s: string)
    requires |Utf8(s)| < 3
    ensures |Tokens(s)| < 2
  {
    AtLeastOneByteEach(s);
    hide Utf8, Tokens;
    if |Tokens(s)| >= 2 {
      TwoTokensLong(s);
    }
  }

  /** What narrowing can be trusted with is not lost. */
  lemma LetThrough(env: Env, node: QueryNode, d: DocId, s: string)
    requires Valid(env.idx) && UpToDate(env, d, s) && Supported(env, node, s)
    requires Wanted(node, false, Utf8(s), env.engine)
    ensures d in Simple(env, PlanNode(node, false))
  {
    assert d in ValidIds(env.idx) && ContentOf(env, d) == Some(Utf8(s));
    hide *;
    SupportedIsTrusted(env, node, d, s);
    AcceptsIff(env, node, false, Utf8(s));
    PassesEveryStep(env, node, false, d, Utf8(s));
    KeptIfLet(env, PlanNode(node, false), d);
  }

  lemma NoStepsNoLoss(env: Env, plan: QueryPlan, d: DocId)
    requires plan.steps == [] && d in ValidIds(env.idx)
    ensures d in Simple(env, plan)
  {
    hide ValidIds;
  }

  /**
    For exact phrases of fewer than two words, an Or of any number of them never
    loses a file if and only if all are shorter than a trigram, or none is.
  */
  lemma OrNeverLosesIff(texts: seq<string>, engine: Engine)
    requires forall k :: 0 <= k < |texts| ==> |Tokens(texts[k])| < 2
    ensures NeverLoses(OrOf(texts)) <==>
            forall i, j :: 0 <= i < |texts| && 0 <= j < |texts| ==> (|Utf8(texts[i])| < 3 <==> |Utf8(texts[j])| < 3)
  {
    hide Tokens, Utf8, PlanNode, Simple, Valid, UpToDate, Wanted, OrOf;
    if i, j :| 0 <= i < |texts| && 0 <= j < |texts| && |Utf8(texts[i])| < 3 && |Utf8(texts[j])| >= 3 {
      ShortBranchLost(texts, i, j, engine);
    } else {
      forall env: Env, d: DocId, s: string |
        Valid(env.idx) && UpToDate(env, d, s) && Wanted(OrOf(texts), false, Utf8(s), env.engine)
        ensures d in Simple(env, PlanNode(OrOf(texts), false))
      {
        if k :| 0 <= k < |texts| && |Utf8(texts[k])| >= 3 {
          AllSupported(env, texts, s);
          LetThrough(env, OrOf(texts), d, s);
        } else {
          NoBranchNarrows(texts);
          ValidOf(env, d, s);
          NoStepsNoLoss(env, PlanNode(OrOf(texts), false), d);
        }
      }
    }
  }

  lemma NoBranchNarrows(texts: seq<string>)
    requires forall k :: 0 <= k < |texts| ==> |Utf8(texts[k])| < 3
    ensures PlanNode(OrOf(texts), false).steps == []
  {
    var plans := SubPlans(OrOf(texts), |Nodes(OrOf(texts))|, false);
    hide *;
    OrSteps(texts);
    if plans != [] {
      var k := PlanOfBranch(texts, plans[0]);
      ShortPlan(texts[k]);
    }
  }

  lemma ValidOf(env: Env, d: DocId, s: string)
    requires UpToDate(env, d, s)
    ensures d in ValidIds(env.idx)
  {
  }

  lemma AllSupported(env: Env, texts: seq<string>, s: string)
    requires forall k :: 0 <= k < |texts| ==> |Tokens(texts[k])| < 2 && |Utf8(texts[k])| >= 3
    ensures Supported(env, OrOf(texts), s)
  {
    hide Tokens, Utf8, PlanNode, PhraseFits, StandsIn;
    forall k | 0 <= k < |texts|
      ensures OrOf(texts).nodes[k] == QueryNode.Phrase(texts[k])
      ensures Supported(env, QueryNode.Phrase(texts[k]), s) && PlanNode(QueryNode.Phrase(texts[k]), false).steps != []
    {
      BranchIs(texts, k);
      PhrasePlan(texts[k]);
      FewWordsFit(s, texts[k]);
    }
  }

  lemma FewWordsFit(s: string, text: string)
    requires |Tokens(text)| < 2
    ensures PhraseFits(s, text)
  {
    hide Tokens;
  }

  // ---------------------------------------------------------------------- Not

  /** What `-ext:rs "text"` is parsed to: the filter is kept aside and an empty term is negated. */
  function NotFilterAnd(text: string): QueryNode {
    QueryNode.And([QueryNode.Not(QueryNode.Empty), QueryNode.Phrase(text)])
  }

  lemma AndSteps(text: string)
    ensures PlanNode(NotFilterAnd(text), false).steps ==
            [Exclude(QueryPlan([], None))] + PlanNode(QueryNode.Phrase(text), false).steps
  {
    var node := NotFilterAnd(text);
    assert Nodes(node) == [QueryNode.Not(QueryNode.Empty), QueryNode.Phrase(text)];
    assert PlanNode(QueryNode.Not(QueryNode.Empty), false).steps == [Exclude(QueryPlan([], None))];
    assert StepsOf(node, 0, false) == [];
    assert StepsOf(node, 1, false) == [Exclude(QueryPlan([], None))];
    assert StepsOf(node, 2, false) == StepsOf(node, 1, false) + PlanNode(QueryNode.Phrase(text), false).steps;
  }

  lemma {:induction false} AllowedStays(env: Env, plan: QueryPlan, k: nat, n: nat)
    requires k < n <= |plan.steps| && StepDocs(env, plan.steps[k]).Some?
    ensures Allowed(env, plan, n).Some?
    decreases n
  {
    hide StepDocs;
    if k < n - 1 {
      AllowedStays(env, plan, k, n - 1);
    }
  }

  /** The steps of a phrase always narrow when nothing is a stop-gram. */
  lemma PhraseNarrows(env: Env, text: string)
    requires env.idx.stopGrams == {} && PlanNode(QueryNode.Phrase(text), false).steps != []
    ensures StepDocs(env, PlanNode(QueryNode.Phrase(text), false).steps[0]).Some?
  {
    var ts := QueryTrigrams(Utf8(text));
    hide Tokens, Utf8, QueryTrigrams, TrigramDocs, PhraseDocs;
    if ts != [] {
      assert ts[0] in NonStop(env.idx, ts);
    } else {
      TwoWordPhrase(env.idx, Tokens(text));
    }
  }

  lemma NotTakesAll(env: Env, text: string, d: DocId)
    requires env.idx.stopGrams == {} && PlanNode(QueryNode.Phrase(text), false).steps != [] && d in ValidIds(env.idx)
    ensures d !in Simple(env, PlanNode(NotFilterAnd(text), false))
  {
    AndSteps(text);
    var plan := PlanNode(NotFilterAnd(text), false);
    var steps := PlanNode(QueryNode.Phrase(text), false).steps;
    assert plan.steps[0] == Exclude(QueryPlan([], None)) && plan.steps[1] == steps[0];
    PhraseNarrows(env, text);
    hide PlanNode, ValidIds, StepDocs;
    AllowedStays(env, plan, 1, |plan.steps|);
    NotOfFilterTakesAll(env, plan, 0, d);
  }

  lemma NoneAllowed(env: Env, plan: QueryPlan, d: DocId)
    requires plan.steps == [Exclude(QueryPlan([], None))] && d in ValidIds(env.idx)
    ensures d in Simple(env, plan)
  {
    assert Allowed(env, plan, 0) == None;
    assert Allowed(env, plan, 1) == None;
    hide ValidIds;
  }

  lemma NotFilterWanted(text: string, engine: Engine)
    ensures Wanted(NotFilterAnd(text), false, Utf8(text), engine)
  {
    FoundInItself(text, engine);
    var node := NotFilterAnd(text);
    assert Says(node.nodes[0]) == false;
    hide HasMatch, Utf8;
  }

  /** A phrase has steps exactly when it is no shorter than a trigram. */
  lemma PhraseNarrowsIff(text: string)
    ensures PlanNode(QueryNode.Phrase(text), false).steps == [] <==> |Utf8(text)| < 3
  {
    hide Tokens, Utf8, QueryTrigrams, RegexSteps, LiteralSteps, NearSteps, StepsOf, SubPlans, VerificationsOf, Joined;
    if |Utf8(text)| < 3 {
      FewTokens(text);
    }
  }

  /**
    A phrase next to a negated filter never loses a file if and only if it is
    shorter than a trigram; if it is not, everything is lost.
  */
  lemma NotFilterNeverLosesIff(text: string, engine: Engine)
    ensures NeverLoses(NotFilterAnd(text)) <==> |Utf8(text)| < 3
  {
    PhraseNarrowsIff(text);
    var node := NotFilterAnd(text);
    if PlanNode(QueryNode.Phrase(text), false).steps != [] {
      var f := SomeExtraction("a", text);
      var d := OneFileUpToDate(f, text, engine);
      var env := EnvOn(OneFile(f), "a", text, engine);
      NotFilterWanted(text, engine);
      ValidOf(env, d, text);
      NotTakesAll(env, text, d);
      hide PlanNode, Wanted, Utf8, Simple, Valid, UpToDate;
    } else {
      AndSteps(text);
      hide Utf8, PlanNode, Simple, Valid, UpToDate, Wanted, ValidIds;
      forall env: Env, d: DocId, s: string |
        Valid(env.idx) && UpToDate(env, d, s) && Wanted(node, false, Utf8(s), env.engine)
        ensures d in Simple(env, PlanNode(node, false))
      {
        ValidOf(env, d, s);
        NoneAllowed(env, PlanNode(node, false), d);
      }
    }
  }
}
