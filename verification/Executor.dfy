/**
  Query execution (src/query/executor.rs:560-905): narrowing with optional
  candidates, early exit, exclusions put off to the end and filters applied
  last, then verification of the files that are left.
*/
module Executor {
  import opened Prelude
  import opened Index
  import opened Bloom
  import opened Reader
  import opened Verify
  import opened Planner

  /** What an execution works on: an index, the files that can be read now, and the matchers. */
  datatype Env = Env(
    idx: Index,
    files: map<Path, seq<Byte>>,
    engine: Engine,
    pathAccepts: (FilterStep, Path) -> bool)

  function PathOf(env: Env, d: DocId): Option<Path> {
    match GetDocument(env.idx, d)
    case None => None
    case Some(doc) => if doc.pathId < |env.idx.paths| then Some(env.idx.paths[doc.pathId]) else None
  }

  function ContentOf(env: Env, d: DocId): Option<seq<Byte>> {
    match PathOf(env, d)
    case None => None
    case Some(p) => if p in env.files then Some(env.files[p]) else None
  }

  // ------------------------------------------------------------------- filters

  predicate AtLeast(n: nat, min: Option<nat>) {
    min.Some? ==> n >= min.value
  }

  predicate AtMost(n: nat, max: Option<nat>) {
    max.Some? ==> n <= max.value
  }

  predicate NeedsPath(f: FilterStep) {
    f.pathGlob.Some? || f.filename.Some? || f.extension.Some?
  }

  /** Whether a document passes a filter; documents that are not valid never do. */
  predicate Passes(env: Env, f: FilterStep, d: DocId) {
    match GetDocument(env.idx, d)
    case None => false
    case Some(doc) =>
      && doc.IsValid()
      && (NeedsPath(f) ==> PathOf(env, d).Some? && env.pathAccepts(f, PathOf(env, d).value))
      && (f.language.Some? ==> doc.language == f.language.value)
      && AtLeast(doc.size, f.sizeMin) && AtMost(doc.size, f.sizeMax)
      && AtLeast(doc.mtime, f.mtimeMin) && AtMost(doc.mtime, f.mtimeMax)
  }

  method ApplyFilter(env: Env, f: FilterStep, candidates: Option<set<DocId>>) returns (result: set<DocId>)
    ensures var from := if candidates.Some? then candidates.value else ValidIds(env.idx);
            result == set d | d in from && Passes(env, f, d)
  {
    hide Passes;
    var from := if candidates.Some? then candidates.value else ValidIds(env.idx);
    var todo := from;
    result := {};
    while todo != {}
      invariant todo <= from
      invariant forall d: DocId :: d in result <==> d in from - todo && Passes(env, f, d)
      decreases |todo|
    {
      var d :| d in todo;
      if Passes(env, f, d) {
        result := result + {d};
      }
      todo := todo - {d};
    }
  }

  // ------------------------------------------------------- the simple evaluation

  /** The trigrams that can be looked up. */
  function NonStop(idx: Index, ts: seq<Trigram>): (r: seq<Trigram>)
    ensures forall t :: t in r <==> t in ts && t !in idx.stopGrams
  {
    if ts == [] then []
    else
      assert ts == ts[..|ts| - 1] + [ts[|ts| - 1]];
      NonStop(idx, ts[..|ts| - 1]) + if ts[|ts| - 1] !in idx.stopGrams then [ts[|ts| - 1]] else []
  }

  function AllTokens(idx: Index, tokens: set<Token>): set<DocId>
    requires tokens != {}
  {
    set s, d | s in Opened(idx) && d in AnyListed(idx, s) && (forall t :: t in tokens ==> d in TokenDocs(idx, t)) :: d
  }

  /** Documents in any token list of a segment. */
  function AnyListed(idx: Index, s: SegmentId): set<DocId>
    requires s in idx.segments
  {
    set t, d | t in idx.segments[s].tokens && d in idx.segments[s].tokens[t] :: d
  }

  /** A single word: its token's documents, and those found by trigrams or, without usable ones, by other tokens. */
  function WordDocs(idx: Index, token: Token, subTokens: set<Token>, ts: seq<Trigram>): set<DocId> {
    var usable := NonStop(idx, ts);
    TokenDocs(idx, token) +
    if usable != [] then TrigramDocs(idx, usable)
    else TokenDocsContaining(idx, token) + if |subTokens| >= 2 then AllTokens(idx, subTokens) else {}
  }

  /** Both constraints, where None constrains nothing. */
  function Meet(a: Option<set<DocId>>, b: Option<set<DocId>>): Option<set<DocId>> {
    if a.None? then b else if b.None? then a else Some(a.value * b.value)
  }

  ghost predicate Confirmed(env: Env, v: VerificationStep, d: DocId) {
    ContentOf(env, d).Some? && HasMatch(ContentOf(env, d).value, v, env.engine)
  }

  /** What one step allows, looked at by itself. */
  ghost function StepDocs(env: Env, step: PlanStep): Option<set<DocId>>
    decreases step
  {
    match step
    case TrigramIntersect(ts) =>
      if NonStop(env.idx, ts) == [] then None else Some(TrigramDocs(env.idx, NonStop(env.idx, ts)))
    case TokenLookup(token) => Some(TokenDocs(env.idx, token))
    case TokenOrTrigram(token, subTokens, ts) => Some(WordDocs(env.idx, token, subTokens, ts))
    case Union(plans) => Some(UnionOf(env, step, |plans|))
    case Intersect(plans) => MeetOf(env, step, |plans|)
    case Exclude(_) => None
    case Filter(f) => Some(set d | d in ValidIds(env.idx) && Passes(env, f, d))
    case PositionalPhrase(phrase) => PhraseDocs(env.idx, phrase, None)
  }

  function PlansIn(step: PlanStep): seq<QueryPlan> {
    match step
    case Union(plans) => plans
    case Intersect(plans) => plans
    case _ => []
  }

  ghost function UnionOf(env: Env, step: PlanStep, n: nat): set<DocId>
    requires n <= |PlansIn(step)|
    decreases step, n
  {
    if n == 0 then {} else UnionOf(env, step, n - 1) + Simple(env, PlansIn(step)[n - 1])
  }

  ghost function MeetOf(env: Env, step: PlanStep, n: nat): Option<set<DocId>>
    requires n <= |PlansIn(step)|
    decreases step, n
  {
    if n == 0 then None else Meet(MeetOf(env, step, n - 1), Some(Simple(env, PlansIn(step)[n - 1])))
  }

  /** What the first `n` steps of a plan allow together. */
  ghost function Allowed(env: Env, plan: QueryPlan, n: nat): Option<set<DocId>>
    requires n <= |plan.steps|
    decreases plan, n
  {
    if n == 0 then None else Meet(Allowed(env, plan, n - 1), StepDocs(env, plan.steps[n - 1]))
  }

  /** What a negated plan takes away. */
  ghost function Excluded(env: Env, plan: QueryPlan): set<DocId>
    decreases plan, |plan.steps| + 2
  {
    if plan.verification.Some? then set d | d in Simple(env, plan) && Confirmed(env, plan.verification.value, d)
    else Simple(env, plan)
  }

  ghost predicate TakenAway(env: Env, plan: QueryPlan, n: nat, d: DocId)
    requires n <= |plan.steps|
    decreases plan, n
  {
    exists k :: 0 <= k < n && plan.steps[k].Exclude? && d in Excluded(env, plan.steps[k].plan)
  }

  /** Every step evaluated in full: what all allow, less what the negations take away. */
  ghost function Simple(env: Env, plan: QueryPlan): set<DocId>
    decreases plan, |plan.steps| + 1
  {
    var allowed := Allowed(env, plan, |plan.steps|);
    if allowed.None? then ValidIds(env.idx)
    else set d | d in allowed.value && !TakenAway(env, plan, |plan.steps|, d)
  }

  // ------------------------------------------------------------ the real executor

  /** What the data structures must be for the executor to be called. */
  ghost predicate Ready(env: Env, blooms: map<SegmentId, BloomFilter>)
    reads set s | s in blooms :: blooms[s].bits
  {
    && (forall s :: s in blooms && s in env.idx.segments ==> Covers(blooms[s], env.idx.segments[s]))
    && (forall s :: s in env.idx.segments ==> PositionsSorted(env.idx.segments[s]))
  }

  /** Phrases list their words in order, and no text to look for is empty. */
  ghost predicate PlanOk(plan: QueryPlan)
  {
    && (plan.verification.Some? ==> NonEmptyTexts(plan.verification.value))
    && forall k :: 0 <= k < |plan.steps| ==> StepOk(plan.steps[k])
  }

  ghost predicate StepOk(step: PlanStep)
  {
    match step
    case PositionalPhrase(phrase) => forall k :: 0 <= k < |phrase| ==> phrase[0].1 <= phrase[k].1
    case Union(plans) => forall k :: 0 <= k < |plans| ==> PlanOk(plans[k])
    case Intersect(plans) => forall k :: 0 <= k < |plans| ==> PlanOk(plans[k])
    case Exclude(plan) => PlanOk(plan)
    case _ => true
  }

  method ConfirmDoc(env: Env, d: DocId, v: VerificationStep) returns (confirmed: bool)
    requires NonEmptyTexts(v)
    ensures confirmed <==> Confirmed(env, v, d)
  {
    hide ContentOf, HasMatch;
    var content := ContentOf(env, d);
    confirmed := false;
    if content.Some? {
      confirmed := FindAny(content.value, v, env.engine);
    }
  }

  method VerifyExcludedDocs(env: Env, toCheck: set<DocId>, v: VerificationStep) returns (confirmed: set<DocId>)
    requires NonEmptyTexts(v)
    ensures confirmed == set d | d in toCheck && Confirmed(env, v, d)
  {
    hide *;
    var todo := toCheck;
    confirmed := {};
    while todo != {}
      invariant todo <= toCheck
      invariant forall d: DocId :: d in confirmed <==> d in toCheck - todo && Confirmed(env, v, d)
      decreases |todo|
    {
      var d :| d in todo;
      var found := ConfirmDoc(env, d, v);
      if found {
        confirmed := confirmed + {d};
      }
      todo := todo - {d};
    }
  }

  method IntersectTokens(idx: Index, tokens: set<Token>) returns (docs: set<DocId>)
    requires tokens != {}
    ensures docs == AllTokens(idx, tokens)
  {
    hide TokenDocs;
    var found: Option<set<DocId>> := None;
    var todo := tokens;
    while todo != {}
      invariant todo <= tokens && (found.None? <==> todo == tokens)
      invariant found.Some? ==> forall d :: d in found.value <==>
                forall t :: t in tokens - todo ==> d in TokenDocs(idx, t)
      decreases |todo|
    {
      var t :| t in todo;
      var d := TokenDocs(idx, t);
      found := Some(match found { case Some(existing) => existing * d case None => d });
      todo := todo - {t};
    }
    docs := found.value;
    forall d | d in docs
      ensures d in AllTokens(idx, tokens)
    {
      var t :| t in tokens;
      ListedSomewhere(idx, t, d);
    }
  }

  lemma ListedSomewhere(idx: Index, t: Token, d: DocId)
    requires d in TokenDocs(idx, t)
    ensures exists s :: s in Opened(idx) && d in AnyListed(idx, s)
  {
  }

  method FindWord(env: Env, blooms: map<SegmentId, BloomFilter>, token: Token, subTokens: set<Token>, ts: seq<Trigram>)
      returns (docs: set<DocId>)
    requires Ready(env, blooms)
    ensures docs == WordDocs(env.idx, token, subTokens, ts)
  {
    hide TokenDocs, TokenDocsContaining, AllTokens, TrigramDocs;
    docs := TokenDocs(env.idx, token);
    var filtered := NonStop(env.idx, ts);
    if filtered != [] {
      var more := GetTrigramDocsWithBloom(env.idx, blooms, filtered);
      docs := docs + more;
    } else {
      docs := docs + TokenDocsContaining(env.idx, token);
      if |subTokens| >= 2 {
        var sub := IntersectTokens(env.idx, subTokens);
        docs := docs + sub;
      }
    }
  }

  /** Sorting and dropping repetitions changes no answer. */
  lemma SameTrigramDocs(idx: Index, ts: seq<Trigram>)
    ensures SortDedup(ts) == [] <==> ts == []
    ensures TrigramDocs(idx, SortDedup(ts)) == TrigramDocs(idx, ts)
  {
    var us := SortDedup(ts);
    if ts != [] {
      assert ts[0] in us;
      forall s | s in Opened(idx)
        ensures AllIn(idx.segments[s], us) == AllIn(idx.segments[s], ts)
      {
        SameElements(idx.segments[s], us, ts);
      }
    }
  }

  lemma SameElements(seg: Segment, us: seq<Trigram>, ts: seq<Trigram>)
    requires us != [] && ts != [] && forall t :: t in us <==> t in ts
    ensures AllIn(seg, us) == AllIn(seg, ts)
  {
    forall d: DocId
      ensures HasAll(seg, us, d) <==> HasAll(seg, ts, d)
    {
      forall k | 0 <= k < |us| ensures us[k] in ts { assert us[k] in us; }
      forall k | 0 <= k < |ts| ensures ts[k] in us { assert ts[k] in ts; }
    }
    assert forall d: DocId :: HasAll(seg, us, d) ==> Posts(seg.trigrams, us[0], d);
    assert forall d: DocId :: HasAll(seg, ts, d) ==> Posts(seg.trigrams, ts[0], d);
  }

  /** One step applied to the candidates so far. */
  method ExecuteStep(env: Env, blooms: map<SegmentId, BloomFilter>, step: PlanStep, candidates: Option<set<DocId>>)
      returns (narrowed: Option<set<DocId>>)
    requires Ready(env, blooms) && StepOk(step)
    ensures narrowed == Meet(candidates, StepDocs(env, step))
    decreases step
  {
    hide TrigramDocs, TokenDocs, WordDocs, PhraseDocs, Passes, Simple, Ready;
    match step {
      case TrigramIntersect(ts) =>
        var filtered := SortDedup(NonStop(env.idx, ts));
        SameTrigramDocs(env.idx, NonStop(env.idx, ts));
        narrowed := candidates;
        if filtered != [] {
          var docs := NarrowByTrigrams(env, blooms, filtered);
          narrowed := Meet(candidates, Some(docs));
        }
      case TokenLookup(token) =>
        narrowed := Meet(candidates, Some(TokenDocs(env.idx, token)));
      case TokenOrTrigram(token, subTokens, ts) =>
        var docs := FindWord(env, blooms, token, subTokens, ts);
        narrowed := Meet(candidates, Some(docs));
      case Union(plans) =>
        var union: set<DocId> := {};
        var k := 0;
        while k < |plans|
          invariant 0 <= k <= |plans| && union == UnionOf(env, step, k)
        {
          var sub := ExecutePlan(env, blooms, plans[k]);
          union := union + sub;
          k := k + 1;
        }
        narrowed := Meet(candidates, Some(union));
      case Intersect(plans) =>
        var intersection: Option<set<DocId>> := None;
        var k := 0;
        while k < |plans|
          invariant 0 <= k <= |plans| && intersection == MeetOf(env, step, k)
        {
          var sub := ExecutePlan(env, blooms, plans[k]);
          intersection := Meet(intersection, Some(sub));
          k := k + 1;
        }
        narrowed := Meet(candidates, intersection);
      case Exclude(_) =>
        narrowed := candidates;
      case PositionalPhrase(phrase) =>
        narrowed := NarrowByPhrase(env, blooms, phrase, candidates);
      case Filter(f) =>
        var filtered := ApplyFilter(env, f, candidates);
        FilterMeets(env, f, candidates, filtered);
        narrowed := Some(filtered);
    }
  }

  method NarrowByTrigrams(env: Env, blooms: map<SegmentId, BloomFilter>, ts: seq<Trigram>) returns (docs: set<DocId>)
    requires Ready(env, blooms)
    ensures docs == TrigramDocs(env.idx, ts)
  {
    docs := GetTrigramDocsWithBloom(env.idx, blooms, ts);
  }

  /** A phrase is resolved among the candidates, or not at all. */
  method NarrowByPhrase(env: Env, blooms: map<SegmentId, BloomFilter>, phrase: Reader.Phrase,
      candidates: Option<set<DocId>>)
    returns (narrowed: Option<set<DocId>>)
    requires Ready(env, blooms) && forall k :: 0 <= k < |phrase| ==> phrase[0].1 <= phrase[k].1
    ensures narrowed == Meet(candidates, PhraseDocs(env.idx, phrase, None))
  {
    var positional := ResolvePhrasePositional(env.idx, phrase, candidates);
    narrowed := candidates;
    if positional.Some? {
      hide Ready, PhraseIn, Mentioned;
      narrowed := Meet(candidates, positional);
      if candidates.Some? {
        assert candidates.value * positional.value == candidates.value * PhraseDocs(env.idx, phrase, None).value;
      }
    }
  }

  /** Filters see candidates that may no longer be valid, and drop them. */
  lemma FilterMeets(env: Env, f: FilterStep, candidates: Option<set<DocId>>, filtered: set<DocId>)
    requires var from := if candidates.Some? then candidates.value else ValidIds(env.idx);
             filtered == set d | d in from && Passes(env, f, d)
    ensures Some(filtered) == Meet(candidates, Some(set d | d in ValidIds(env.idx) && Passes(env, f, d)))
  {
    hide Passes, ValidIds;
    forall d: DocId | Passes(env, f, d)
      ensures d in ValidIds(env.idx)
    {
      PassesValid(env, f, d);
    }
    var all := set d | d in ValidIds(env.idx) && Passes(env, f, d);
    if candidates.Some? {
      assert filtered == candidates.value * all;
    }
  }

  lemma PassesValid(env: Env, f: FilterStep, d: DocId)
    requires Passes(env, f, d)
    ensures d in ValidIds(env.idx)
  {
    var doc := GetDocument(env.idx, d).value;
    var i :| 0 <= i < |env.idx.docs| && env.idx.docs[i] == doc;
  }

  function ExcludesFirst(steps: seq<PlanStep>, n: nat): seq<QueryPlan>
    requires n <= |steps|
  {
    if n == 0 then [] else ExcludesFirst(steps, n - 1) + if steps[n - 1].Exclude? then [steps[n - 1].plan] else []
  }

  lemma {:induction false} ExcludesAre(env: Env, plan: QueryPlan, n: nat, d: DocId)
    requires n <= |plan.steps|
    ensures TakenAway(env, plan, n, d) <==>
            exists j :: 0 <= j < |ExcludesFirst(plan.steps, n)| && d in Excluded(env, ExcludesFirst(plan.steps, n)[j])
    decreases n
  {
    hide Excluded;
    if n > 0 {
      ExcludesAre(env, plan, n - 1, d);
      var before, all := ExcludesFirst(plan.steps, n - 1), ExcludesFirst(plan.steps, n);
      assert forall j :: 0 <= j < |before| ==> all[j] == before[j];
      if plan.steps[n - 1].Exclude? {
        assert all[|before|] == plan.steps[n - 1].plan;
      }
    }
  }

  lemma {:induction false} StaysEmpty(env: Env, plan: QueryPlan, k: nat, n: nat)
    requires k <= n <= |plan.steps| && Allowed(env, plan, k) == Some({})
    ensures Allowed(env, plan, n) == Some({})
    decreases n
  {
    if k < n {
      StaysEmpty(env, plan, k, n - 1);
      NothingMeets(StepDocs(env, plan.steps[n - 1]));
    }
  }

  lemma NothingMeets(b: Option<set<DocId>>)
    ensures Meet(Some({}), b) == Some({})
  {
    var nothing: set<DocId> := {};
    assert b.Some? ==> nothing * b.value == nothing;
  }

  lemma {:induction false} ExcludesOk(plan: QueryPlan, n: nat)
    requires PlanOk(plan) && n <= |plan.steps|
    ensures forall j :: 0 <= j < |ExcludesFirst(plan.steps, n)| ==>
            PlanOk(ExcludesFirst(plan.steps, n)[j]) && ExcludesFirst(plan.steps, n)[j] < plan
    decreases n
  {
    if n > 0 {
      ExcludesOk(plan, n - 1);
      assert StepOk(plan.steps[n - 1]);
    }
  }

  /** The narrowing phase: early exit, exclusions last and only on what is left. */
  method ExecutePlan(env: Env, blooms: map<SegmentId, BloomFilter>, plan: QueryPlan) returns (result: set<DocId>)
    requires Ready(env, blooms) && PlanOk(plan)
    ensures result == Simple(env, plan)
    decreases plan
  {
    hide Ready, StepDocs, ValidIds, TakenAway, Excluded, StepOk;
    var candidates: Option<set<DocId>> := None;
    var excludePlans: seq<QueryPlan> := [];
    var k := 0;
    while k < |plan.steps|
      invariant 0 <= k <= |plan.steps|
      invariant candidates == Allowed(env, plan, k) && excludePlans == ExcludesFirst(plan.steps, k)
    {
      var step := plan.steps[k];
      if step.Exclude? {
        excludePlans := excludePlans + [step.plan];
      }
      candidates := ExecuteStep(env, blooms, step, candidates);
      k := k + 1;
      if candidates.Some? && candidates.value == {} {
        StaysEmpty(env, plan, k, |plan.steps|);
        assert Simple(env, plan) == {};
        return {};
      }
    }
    if candidates.None? {
      return ValidIds(env.idx);
    }
    ExcludesOk(plan, |plan.steps|);
    result := ResolveExclusions(env, blooms, plan, excludePlans, candidates.value);
    forall d: DocId
      ensures TakenAway(env, plan, |plan.steps|, d) <==>
              exists j :: 0 <= j < |excludePlans| && d in Excluded(env, excludePlans[j])
    {
      ExcludesAre(env, plan, |plan.steps|, d);
    }
  }

  /** Only documents still in question are verified against the negated terms. */
  method ResolveExclusions(env: Env, blooms: map<SegmentId, BloomFilter>, ghost plan: QueryPlan,
      excludePlans: seq<QueryPlan>, candidates: set<DocId>)
    returns (cands: set<DocId>)
    requires Ready(env, blooms)
    requires forall j :: 0 <= j < |excludePlans| ==> PlanOk(excludePlans[j]) && excludePlans[j] < plan
    ensures cands ==
            set d | d in candidates && !exists j :: 0 <= j < |excludePlans| && d in Excluded(env, excludePlans[j])
    decreases plan, 0
  {
    hide Ready, Simple, Confirmed, PlanOk;
    cands := candidates;
    var j := 0;
    while j < |excludePlans|
      invariant 0 <= j <= |excludePlans|
      invariant cands == set d | d in candidates && forall i :: 0 <= i < j ==> d !in Excluded(env, excludePlans[i])
    {
      if cands == {} {
        return;
      }
      var sub := excludePlans[j];
      var excluded := ExecutePlan(env, blooms, sub);
      if sub.verification.Some? {
        assert NonEmptyTexts(sub.verification.value) by { PlanTexts(sub); }
        var confirmed := VerifyExcludedDocs(env, excluded * cands, sub.verification.value);
        cands := cands - confirmed;
      } else {
        cands := cands - excluded;
      }
      j := j + 1;
    }
  }

  lemma PlanTexts(plan: QueryPlan)
    requires PlanOk(plan)
    ensures plan.verification.Some? ==> NonEmptyTexts(plan.verification.value)
  {
  }
}
