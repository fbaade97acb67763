/**
  What a search finds: narrowing, verification and filters together against a
  scan of every valid document, and when narrowing loses nothing.
*/
module Search {
  import opened Prelude
  import opened Index
  import opened Bloom
  import opened Reader
  import opened Scanner
  import opened Verify
  import opened QueryTree
  import opened Planner
  import opened Matches
  import opened Executor

  // --------------------------------------------------------- verified matches

  predicate InLines(m: Match, f: FilterStep) {
    AtLeast(m.line, f.lineStart) && AtMost(m.line, f.lineEnd)
  }

  function RetainLines(ms: seq<Match>, f: FilterStep): seq<Match> {
    if ms == [] then []
    else RetainLines(ms[..|ms| - 1], f) + if InLines(ms[|ms| - 1], f) then [ms[|ms| - 1]] else []
  }

  /** The first filter of a plan that restricts lines. */
  function LineFilter(steps: seq<PlanStep>): (f: FilterStep)
    ensures f == NO_FILTER || Filter(f) in steps
  {
    if steps == [] then NO_FILTER
    else if steps[0].Filter? && (steps[0].filter.lineStart.Some? || steps[0].filter.lineEnd.Some?) then steps[0].filter
    else LineFilter(steps[1..])
  }

  /** The matches of a document that are reported; None when it is not reported at all. */
  ghost function Report(env: Env, plan: QueryPlan, d: DocId): Option<seq<Match>> {
    if plan.verification.None? then
      if PathOf(env, d).Some? then Some([]) else None
    else if ContentOf(env, d).None? then None
    else
      var ms := RetainLines(VerifyMatches(ContentOf(env, d).value, plan.verification.value, env.engine),
        LineFilter(plan.steps));
      if ms == [] then None else Some(ms)
  }

  method ReportOn(env: Env, plan: QueryPlan, d: DocId) returns (report: Option<seq<Match>>)
    requires PlanOk(plan)
    ensures report == Report(env, plan, d)
  {
    hide ContentOf, PathOf, VerifyMatches, LineFilter;
    if plan.verification.None? {
      return if PathOf(env, d).Some? then Some([]) else None;
    }
    if ContentOf(env, d).None? {
      return None;
    }
    PlanTexts(plan);
    var found := VerifyContent(ContentOf(env, d).value, plan.verification.value, env.engine);
    var kept: seq<Match> := [];
    var f := LineFilter(plan.steps);
    var k := 0;
    while k < |found|
      invariant 0 <= k <= |found| && kept == RetainLines(found[..k], f)
    {
      assert found[..k + 1][..k] == found[..k];
      if InLines(found[k], f) {
        kept := kept + [found[k]];
      }
      k := k + 1;
    }
    assert found[..k] == found;
    report := if kept == [] then None else Some(kept);
  }

  /** Reads and verifies each candidate. */
  method FindVerifiedMatches(env: Env, candidates: set<DocId>, plan: QueryPlan)
      returns (results: map<DocId, seq<Match>>)
    requires PlanOk(plan)
    ensures results.Keys == set d | d in candidates && Report(env, plan, d).Some?
    ensures forall d :: d in results ==> Some(results[d]) == Report(env, plan, d)
  {
    hide *;
    results := map[];
    var todo := candidates;
    while todo != {}
      invariant todo <= candidates
      invariant forall d: DocId :: d in results <==> d in candidates - todo && Report(env, plan, d).Some?
      invariant forall d: DocId :: d in results ==> Some(results[d]) == Report(env, plan, d)
      decreases |todo|
    {
      var d :| d in todo;
      var report := ReportOn(env, plan, d);
      if report.Some? {
        results := results[d := report.value];
      }
      todo := todo - {d};
    }
  }

  /** Plan, narrow, verify. */
  method Execute(env: Env, blooms: map<SegmentId, BloomFilter>, q: Query) returns (results: map<DocId, seq<Match>>)
    requires Ready(env, blooms) && PlanOk(PlanQuery(q))
    ensures results.Keys == set d | d in Simple(env, PlanQuery(q)) && Report(env, PlanQuery(q), d).Some?
    ensures forall d :: d in results ==> Some(results[d]) == Report(env, PlanQuery(q), d)
    ensures Says(q.root) ==> forall d, m :: d in results ==>
              (m in results[d] <==> ContentOf(env, d).Some? && Shown(q, ContentOf(env, d).value, env.engine, m))
  {
    hide *;
    var plan := PlanQuery(q);
    var candidates := ExecutePlan(env, blooms, plan);
    results := FindVerifiedMatches(env, candidates, plan);
    if Says(q.root) {
      forall d, m | d in results
        ensures m in results[d] <==> ContentOf(env, d).Some? && Shown(q, ContentOf(env, d).value, env.engine, m)
      {
        TextsOk(q);
        ReportIs(env, q, d, m);
      }
    }
  }

  lemma TextsOk(q: Query)
    requires PlanOk(PlanQuery(q))
    ensures PlanQuery(q).verification.Some? ==> NonEmptyTexts(PlanQuery(q).verification.value)
  {
    hide PlanNode, NonEmptyTexts, StepOk;
  }

  /** A match of the query, in the lines asked for. */
  ghost predicate Shown(q: Query, content: seq<Byte>, engine: Engine, m: Match) {
    NodeFinds(q.root, q.caseInsensitive, content, engine, m) && InRange(m.line, q.filters)
  }

  // --------------------------------------------------------------- brute force

  ghost predicate Scanned(env: Env, q: Query, d: DocId) {
    && d in ValidIds(env.idx)
    && (q.filters != NO_FILTER ==> Passes(env, q.filters, d))
    && Report(env, PlanQuery(q), d).Some?
  }

  ghost predicate Searched(env: Env, q: Query, d: DocId) {
    d in Simple(env, PlanQuery(q)) && Report(env, PlanQuery(q), d).Some?
  }

  /** Paths a scan of every valid document reports. */
  ghost predicate ScanFinds(env: Env, q: Query, p: Path) {
    exists d :: Scanned(env, q, d) && PathOf(env, d) == Some(p)
  }

  /** Paths the search reports. */
  ghost predicate SearchFinds(env: Env, q: Query, p: Path) {
    exists d :: Searched(env, q, d) && PathOf(env, d) == Some(p)
  }

  // ------------------------------------------------------------ losing nothing

  /** The step lets the document through. */
  ghost predicate Lets(env: Env, step: PlanStep, d: DocId) {
    match step
    case Exclude(plan) => d !in Excluded(env, plan)
    case _ => StepDocs(env, step).Some? ==> d in StepDocs(env, step).value
  }

  ghost predicate LetsAll(env: Env, steps: seq<PlanStep>, d: DocId) {
    forall k :: 0 <= k < |steps| ==> Lets(env, steps[k], d)
  }

  lemma {:induction false} AllowedIfLet(env: Env, plan: QueryPlan, n: nat, d: DocId)
    requires n <= |plan.steps| && LetsAll(env, plan.steps, d)
    ensures Allowed(env, plan, n).Some? ==> d in Allowed(env, plan, n).value
    decreases n
  {
    hide StepDocs, Excluded;
    if n > 0 {
      AllowedIfLet(env, plan, n - 1, d);
      assert Lets(env, plan.steps[n - 1], d);
      assert plan.steps[n - 1].Exclude? ==> StepDocs(env, plan.steps[n - 1]).None? by {
        NoDocs(env, plan.steps[n - 1]);
      }
    }
  }

  lemma NoDocs(env: Env, step: PlanStep)
    ensures step.Exclude? ==> StepDocs(env, step).None?
  {
  }

  /** A valid document every step lets through is a candidate. */
  lemma KeptIfLet(env: Env, plan: QueryPlan, d: DocId)
    requires d in ValidIds(env.idx) && LetsAll(env, plan.steps, d)
    ensures d in Simple(env, plan)
  {
    hide StepDocs, Excluded, ValidIds, Allowed;
    AllowedIfLet(env, plan, |plan.steps|, d);
    forall k | 0 <= k < |plan.steps| && plan.steps[k].Exclude?
      ensures d !in Excluded(env, plan.steps[k].plan)
    {
      assert Lets(env, plan.steps[k], d);
    }
  }

  /** A leaf's steps let a document through whenever its content is wanted. */
  ghost predicate LeafSound(env: Env, node: QueryNode, ci: bool, d: DocId, content: seq<Byte>) {
    Accepts(PlanNode(node, ci).verification, content, env.engine) ==> LetsAll(env, PlanNode(node, ci).steps, d)
  }

  /**
    Where narrowing can be trusted with a document: leaf steps are sound outside
    negations, each branch of an Or that says something yields a step, and what
    is negated can be verified.
  */
  ghost predicate Trusted(env: Env, node: QueryNode, ci: bool, d: DocId, content: seq<Byte>) {
    match node
    case And(nodes) => forall k :: 0 <= k < |nodes| ==> Trusted(env, nodes[k], ci, d, content)
    case Or(nodes) => forall k :: 0 <= k < |nodes| ==>
                        Trusted(env, nodes[k], ci, d, content)
                          && (Says(nodes[k]) ==> PlanNode(nodes[k], ci).steps != [])
    case Not(inner) => Says(inner)
    case _ => LeafSound(env, node, ci, d, content)
  }

  lemma {:induction false} StepsIn(node: QueryNode, n: nat, ci: bool, step: PlanStep) returns (k: nat)
    requires n <= |Nodes(node)| && step in StepsOf(node, n, ci)
    ensures k < n && step in PlanNode(Nodes(node)[k], ci).steps
    decreases n
  {
    hide PlanNode;
    if step in PlanNode(Nodes(node)[n - 1], ci).steps {
      k := n - 1;
    } else {
      k := StepsIn(node, n - 1, ci, step);
    }
  }

  lemma {:induction false} PlanIn(node: QueryNode, n: nat, ci: bool, k: nat)
    requires k < n <= |Nodes(node)| && PlanNode(Nodes(node)[k], ci).steps != []
    ensures PlanNode(Nodes(node)[k], ci) in SubPlans(node, n, ci)
    decreases n
  {
    hide PlanNode;
    if k < n - 1 {
      PlanIn(node, n - 1, ci, k);
    }
  }

  lemma {:induction false} InUnion(env: Env, step: PlanStep, n: nat, k: nat, d: DocId)
    requires k < n <= |PlansIn(step)| && d in Simple(env, PlansIn(step)[k])
    ensures d in UnionOf(env, step, n)
    decreases n
  {
    hide Simple;
    if k < n - 1 {
      InUnion(env, step, n - 1, k, d);
    }
  }

  lemma LetsIn(env: Env, steps: seq<PlanStep>, step: PlanStep, d: DocId)
    requires LetsAll(env, steps, d) && step in steps
    ensures Lets(env, step, d)
  {
  }

  /** A tree that says nothing of the content plans no step. */
  lemma {:induction false} SilentSteps(env: Env, node: QueryNode, ci: bool, d: DocId, content: seq<Byte>)
    requires !Says(node) && Trusted(env, node, ci, d, content)
    ensures PlanNode(node, ci).steps == []
    decreases node
  {
    if node.And? || node.Or? {
      SilentParts(env, node, ci, d, content, |Nodes(node)|);
    }
  }

  lemma {:induction false} SilentParts(env: Env, node: QueryNode, ci: bool, d: DocId, content: seq<Byte>, n: nat)
    requires (node.And? || node.Or?) && !Says(node) && Trusted(env, node, ci, d, content) && n <= |Nodes(node)|
    ensures StepsOf(node, n, ci) == [] && SubPlans(node, n, ci) == []
    decreases node, n
  {
    if n > 0 {
      SilentParts(env, node, ci, d, content, n - 1);
      SilentSteps(env, Nodes(node)[n - 1], ci, d, content);
      hide PlanNode, LeafSound;
    }
  }

  /** Accepting the planned verification is wanting the content. */
  lemma AcceptsIff(env: Env, node: QueryNode, ci: bool, content: seq<Byte>)
    ensures Accepts(PlanNode(node, ci).verification, content, env.engine) <==>
            (Says(node) ==> Wanted(node, ci, content, env.engine))
  {
    VerificationMeans(node, ci, content, env.engine);
    hide PlanNode, HasMatch, Wanted, Says;
  }

  /** A document narrowing can be trusted with passes every step when its content is wanted. */
  lemma {:induction false} PassesEveryStep(env: Env, node: QueryNode, ci: bool, d: DocId, content: seq<Byte>)
    requires d in ValidIds(env.idx) && ContentOf(env, d) == Some(content)
    requires Trusted(env, node, ci, d, content)
    requires Accepts(PlanNode(node, ci).verification, content, env.engine)
    ensures LetsAll(env, PlanNode(node, ci).steps, d)
    decreases node
  {
    hide ContentOf, ValidIds, HasMatch, LetsAll;
    match node {
      case And(nodes) => AndPasses(env, node, ci, d, content);
      case Or(nodes) => OrPasses(env, node, ci, d, content);
      case Not(inner) => NotPasses(env, node, ci, d, content);
      case _ => assert LeafSound(env, node, ci, d, content);
    }
  }

  lemma {:induction false} AndPasses(env: Env, node: QueryNode, ci: bool, d: DocId, content: seq<Byte>)
    requires node.And? && d in ValidIds(env.idx) && ContentOf(env, d) == Some(content)
    requires Trusted(env, node, ci, d, content)
    requires Accepts(PlanNode(node, ci).verification, content, env.engine)
    ensures LetsAll(env, PlanNode(node, ci).steps, d)
    decreases node, 0
  {
    AcceptsIff(env, node, ci, content);
    assert PlanNode(node, ci).steps == StepsOf(node, |Nodes(node)|, ci);
    hide PlanNode, ContentOf, ValidIds, HasMatch, Lets, StepsOf, Accepts;
    forall step | step in StepsOf(node, |Nodes(node)|, ci)
      ensures Lets(env, step, d)
    {
      var k := StepsIn(node, |Nodes(node)|, ci, step);
      AcceptsIff(env, Nodes(node)[k], ci, content);
      PassesEveryStep(env, Nodes(node)[k], ci, d, content);
      LetsIn(env, PlanNode(Nodes(node)[k], ci).steps, step, d);
    }
  }

  lemma {:induction false} OrPasses(env: Env, node: QueryNode, ci: bool, d: DocId, content: seq<Byte>)
    requires node.Or? && d in ValidIds(env.idx) && ContentOf(env, d) == Some(content)
    requires Trusted(env, node, ci, d, content)
    requires Accepts(PlanNode(node, ci).verification, content, env.engine)
    ensures LetsAll(env, PlanNode(node, ci).steps, d)
    decreases node, 0
  {
    if !Says(node) {
      SilentSteps(env, node, ci, d, content);
    } else {
      AcceptsIff(env, node, ci, content);
      var plans := SubPlans(node, |Nodes(node)|, ci);
      assert PlanNode(node, ci).steps == if plans == [] then [] else [Union(plans)];
      hide PlanNode, ContentOf, ValidIds, HasMatch, SubPlans, Accepts, Simple, LeafSound;
      var k :| 0 <= k < |Nodes(node)| && Says(Nodes(node)[k]) && Wanted(Nodes(node)[k], ci, content, env.engine);
      hide Wanted, Says;
      AcceptsIff(env, Nodes(node)[k], ci, content);
      PassesEveryStep(env, Nodes(node)[k], ci, d, content);
      KeptIfLet(env, PlanNode(Nodes(node)[k], ci), d);
      PlanIn(node, |Nodes(node)|, ci, k);
      var j :| 0 <= j < |plans| && plans[j] == PlanNode(Nodes(node)[k], ci);
      InUnion(env, Union(plans), |plans|, j, d);
    }
  }

  lemma NotPasses(env: Env, node: QueryNode, ci: bool, d: DocId, content: seq<Byte>)
    requires node.Not? && ContentOf(env, d) == Some(content) && Says(node.inner)
    requires Accepts(PlanNode(node, ci).verification, content, env.engine)
    ensures LetsAll(env, PlanNode(node, ci).steps, d)
  {
    var plan := PlanNode(node.inner, ci);
    NotPlanIs(node, ci);
    VerificationMeans(node.inner, ci, content, env.engine);
    hide PlanNode, ContentOf, Simple, Wanted, Says;
    assert Accepts(Some(VerificationStep.Not(plan.verification.value)), content, env.engine);
    assert !HasMatch(content, plan.verification.value, env.engine);
    assert d !in Excluded(env, plan);
  }

  lemma NotPlanIs(node: QueryNode, ci: bool)
    requires node.Not?
    ensures var plan := PlanNode(node.inner, ci);
            PlanNode(node, ci) == QueryPlan([Exclude(plan)],
              if plan.verification.Some? then Some(VerificationStep.Not(plan.verification.value)) else None)
  {
  }

  // ----------------------------------------------------------------- the search

  ghost function ContentOr(env: Env, d: DocId): seq<Byte> {
    if ContentOf(env, d).Some? then ContentOf(env, d).value else []
  }

  /** The query can be trusted with the document, and its two forms of matching compared on it. */
  ghost predicate TrustedWith(env: Env, q: Query, d: DocId) {
    var v := PlanNode(q.root, q.caseInsensitive).verification;
    && Trusted(env, q.root, q.caseInsensitive, d, ContentOr(env, d))
    && (v.Some? ==> Comparable(ContentOr(env, d), v.value, env.engine))
  }

  lemma RetainedFrom(ms: seq<Match>, f: FilterStep)
    ensures RetainLines(ms, f) != [] ==> ms != []
  {
  }

  /** What is reported is wanted. */
  lemma ReportAccepts(env: Env, q: Query, d: DocId)
    requires Report(env, PlanQuery(q), d).Some? && TrustedWith(env, q, d)
    ensures PlanQuery(q).verification.Some? ==>
            ContentOf(env, d).Some? && HasMatch(ContentOr(env, d), PlanQuery(q).verification.value, env.engine)
  {
    var v := PlanQuery(q).verification;
    hide ContentOf, Trusted, PlanNode, VerifyMatches, HasMatch, LineFilter, Comparable;
    if v.Some? {
      RetainedFrom(VerifyMatches(ContentOr(env, d), v.value, env.engine), LineFilter(PlanQuery(q).steps));
      FormsAgree(ContentOr(env, d), v.value, env.engine);
    }
  }

  lemma FilterLets(env: Env, q: Query, d: DocId)
    requires d in ValidIds(env.idx) && (q.filters != NO_FILTER ==> Passes(env, q.filters, d))
    requires LetsAll(env, PlanNode(q.root, q.caseInsensitive).steps, d)
    ensures LetsAll(env, PlanQuery(q).steps, d)
  {
    hide PlanNode, Passes, ValidIds, StepDocs, Excluded;
    assert Lets(env, Filter(q.filters), d) || q.filters == NO_FILTER by { LetsFilter(env, q.filters, d); }
    hide Lets;
  }

  lemma LetsFilter(env: Env, f: FilterStep, d: DocId)
    requires d in ValidIds(env.idx)
    ensures Passes(env, f, d) ==> Lets(env, Filter(f), d)
  {
    hide Passes, ValidIds;
  }

  /** No valid document the scan reports is lost by narrowing. */
  lemma NarrowingLosesNothing(env: Env, q: Query, d: DocId)
    requires Scanned(env, q, d) && TrustedWith(env, q, d)
    ensures Searched(env, q, d)
  {
    ReportAccepts(env, q, d);
    var node, ci, content := q.root, q.caseInsensitive, ContentOr(env, d);
    VerificationMeans(node, ci, content, env.engine);
    hide PlanNode, Report, ValidIds, ContentOf, HasMatch, Trusted, Comparable, Passes, Simple, Wanted, Says, LetsAll;
    if PlanNode(node, ci).verification.None? {
      SilentSteps(env, node, ci, d, content);
      assert LetsAll(env, [], d) by { LetsNothing(env, d); }
    } else {
      PassesEveryStep(env, node, ci, d, content);
    }
    FilterLets(env, q, d);
    KeptIfLet(env, PlanQuery(q), d);
  }

  lemma LetsNothing(env: Env, d: DocId)
    ensures LetsAll(env, [], d)
  {
  }

  // --------------------------------------------------- nothing else is reported

  lemma {:induction false} AllowedInStep(env: Env, plan: QueryPlan, n: nat, k: nat, d: DocId)
    requires k < n <= |plan.steps| && StepDocs(env, plan.steps[k]).Some?
    ensures Allowed(env, plan, n).Some?
    ensures d in Allowed(env, plan, n).value ==> d in StepDocs(env, plan.steps[k]).value
    decreases n
  {
    hide StepDocs;
    if k < n - 1 {
      AllowedInStep(env, plan, n - 1, k, d);
    }
  }

  /** With a filter only valid documents that pass are left. */
  lemma FilteredPass(env: Env, q: Query, d: DocId)
    requires q.filters != NO_FILTER && d in Simple(env, PlanQuery(q))
    ensures d in ValidIds(env.idx) && Passes(env, q.filters, d)
  {
    var plan := PlanQuery(q);
    var k := |plan.steps| - 1;
    assert plan.steps[k] == Filter(q.filters);
    FilterDocs(env, q.filters);
    hide PlanNode, Passes, ValidIds, StepDocs, Allowed, Excluded, TakenAway;
    AllowedInStep(env, plan, |plan.steps|, k, d);
  }

  lemma FilterDocs(env: Env, f: FilterStep)
    ensures StepDocs(env, Filter(f)) == Some(set d | d in ValidIds(env.idx) && Passes(env, f, d))
  {
  }

  /** A path reported through a document that is no longer valid. */
  ghost predicate StaleFinds(env: Env, q: Query, p: Path) {
    exists d :: Searched(env, q, d) && d !in ValidIds(env.idx) && PathOf(env, d) == Some(p)
  }

  /** The query can be trusted with the valid documents of a path. */
  ghost predicate TrustedAt(env: Env, q: Query, p: Path) {
    forall d :: d in ValidIds(env.idx) && PathOf(env, d) == Some(p) ==> TrustedWith(env, q, d)
  }

  /** The search reports the paths the scan reports, and those it reaches through buried documents. */
  lemma SearchIsScan(env: Env, q: Query, p: Path)
    requires TrustedAt(env, q, p)
    ensures SearchFinds(env, q, p) <==> ScanFinds(env, q, p) || StaleFinds(env, q, p)
  {
    hide Report, ValidIds, TrustedWith, Simple, Passes, PathOf;
    if ScanFinds(env, q, p) {
      var d :| Scanned(env, q, d) && PathOf(env, d) == Some(p);
      assert TrustedWith(env, q, d);
      NarrowingLosesNothing(env, q, d);
      assert Searched(env, q, d);
    }
    if SearchFinds(env, q, p) {
      var d :| Searched(env, q, d) && PathOf(env, d) == Some(p);
      if d in ValidIds(env.idx) {
        if q.filters != NO_FILTER {
          FilteredPass(env, q, d);
        }
        assert Scanned(env, q, d);
      } else {
        assert StaleFinds(env, q, p);
      }
    }
  }

  /** A path that can be read and is reached through any document has a valid one. */
  ghost predicate PathCovered(env: Env, p: Path) {
    p in env.files && (exists d :: PathOf(env, d) == Some(p)) ==>
      exists e :: e in ValidIds(env.idx) && PathOf(env, e) == Some(p)
  }

  lemma SameReport(env: Env, plan: QueryPlan, d: DocId, e: DocId)
    requires PathOf(env, d) == PathOf(env, e)
    ensures Report(env, plan, d) == Report(env, plan, e)
  {
    hide PathOf, VerifyMatches, LineFilter;
  }

  /**
    The central promise: a search reports exactly the paths that reading every
    live file would. Nothing is asked of files elsewhere, or of one that cannot
    be read.
  */
  lemma SearchIsGrep(env: Env, q: Query, p: Path)
    requires p in env.files ==> TrustedAt(env, q, p)
    requires PathCovered(env, p) && PlanQuery(q).verification.Some?
    ensures SearchFinds(env, q, p) <==> ScanFinds(env, q, p)
  {
    hide Report, ValidIds, TrustedAt, Simple, Passes, PathOf;
    if p !in env.files {
      UnreadNotFound(env, q, p);
      return;
    }
    SearchIsScan(env, q, p);
    if StaleFinds(env, q, p) {
      var d :| Searched(env, q, d) && d !in ValidIds(env.idx) && PathOf(env, d) == Some(p);
      if q.filters != NO_FILTER {
        FilteredPass(env, q, d);
      } else {
        assert p in env.files by { ReportedIsRead(env, q, d, p); }
        var e :| e in ValidIds(env.idx) && PathOf(env, e) == Some(p);
        SameReport(env, PlanQuery(q), d, e);
        assert Scanned(env, q, e);
      }
    }
  }

  /** A query that says something of the content reports no path that cannot be read. */
  lemma UnreadNotFound(env: Env, q: Query, p: Path)
    requires p !in env.files && PlanQuery(q).verification.Some?
    ensures !SearchFinds(env, q, p) && !ScanFinds(env, q, p)
  {
    hide Report, ValidIds, Simple, Passes, PathOf;
    forall d | PathOf(env, d) == Some(p)
      ensures Report(env, PlanQuery(q), d).None?
    {
      if Report(env, PlanQuery(q), d).Some? {
        ReportedIsRead(env, q, d, p);
      }
    }
  }

  lemma ReportedIsRead(env: Env, q: Query, d: DocId, p: Path)
    requires Report(env, PlanQuery(q), d).Some? && PlanQuery(q).verification.Some? && PathOf(env, d) == Some(p)
    ensures p in env.files
  {
    hide PathOf, VerifyMatches, LineFilter, PlanNode;
  }

  lemma {:induction false} InRetained(ms: seq<Match>, f: FilterStep, m: Match)
    ensures m in RetainLines(ms, f) <==> m in ms && InRange(m.line, f)
  {
    if ms != [] {
      InRetained(ms[..|ms| - 1], f, m);
      assert ms == ms[..|ms| - 1] + [ms[|ms| - 1]];
    }
  }

  /** Matches are kept as often as they were found, and in their order. */
  lemma {:induction false} RetainedInOrder(ms: seq<Match>, more: seq<Match>, f: FilterStep)
    ensures RetainLines(ms + more, f) == RetainLines(ms, f) + RetainLines(more, f)
    decreases |more|
  {
    if more == [] {
      assert ms + more == ms;
    } else {
      var init, last := more[..|more| - 1], more[|more| - 1];
      RetainedInOrder(ms, init, f);
      assert (ms + more)[..|ms + more| - 1] == ms + init;
      hide InLines;
    }
  }

  lemma RetainedOne(m: Match, f: FilterStep)
    ensures RetainLines([m], f) == if InRange(m.line, f) then [m] else []
  {
    assert [m][..0] == [];
  }

  /** With or without a line filter, exactly the matches of the query in the lines asked for are reported. */
  lemma ReportIs(env: Env, q: Query, d: DocId, m: Match)
    requires Says(q.root)
    requires PlanQuery(q).verification.Some? ==> NonEmptyTexts(PlanQuery(q).verification.value)
    ensures Report(env, PlanQuery(q), d).Some? && m in Report(env, PlanQuery(q), d).value <==>
            ContentOf(env, d).Some? && Shown(q, ContentOf(env, d).value, env.engine, m)
  {
    QueryFinds(q, ContentOr(env, d), env.engine, m);
    LinesAskedFor(q);
    var f := LineFilter(PlanQuery(q).steps);
    hide ContentOf, PlanNode, VerifyMatches, LineFilter, NodeFinds, Says, NonEmptyTexts;
    if ContentOf(env, d).Some? {
      InRetained(VerifyMatches(ContentOf(env, d).value, PlanQuery(q).verification.value, env.engine), f, m);
    }
  }

  /** A document is reported exactly when the query shows something of its content. */
  lemma ReportedIffShown(env: Env, q: Query, d: DocId)
    requires Says(q.root)
    requires PlanQuery(q).verification.Some? ==> NonEmptyTexts(PlanQuery(q).verification.value)
    ensures Report(env, PlanQuery(q), d).Some? <==>
            ContentOf(env, d).Some? && Shows(q, ContentOf(env, d).value, env.engine)
  {
    QueryFinds(q, [], env.engine, Match(0, [], 0, 0));
    hide ContentOf, PlanNode, VerifyMatches, LineFilter, NodeFinds, Says, NonEmptyTexts;
    var r := Report(env, PlanQuery(q), d);
    if r.Some? {
      assert r.value[0] in r.value;
      ReportIs(env, q, d, r.value[0]);
    }
    if ContentOf(env, d).Some? && Shows(q, ContentOf(env, d).value, env.engine) {
      var m :| NodeFinds(q.root, q.caseInsensitive, ContentOf(env, d).value, env.engine, m)
        && InRange(m.line, q.filters);
      ReportIs(env, q, d, m);
    }
  }

  ghost predicate NoFilterIn(steps: seq<PlanStep>) {
    forall k :: 0 <= k < |steps| ==> !steps[k].Filter?
  }

  /** Planning a tree yields no filter step. */
  lemma {:induction false} TreesDoNotFilter(node: QueryNode, ci: bool)
    ensures NoFilterIn(PlanNode(node, ci).steps)
    decreases node
  {
    if node.And? {
      hide PlanNode;
      forall step | step in StepsOf(node, |node.nodes|, ci)
        ensures !step.Filter?
      {
        var k := StepsIn(node, |node.nodes|, ci, step);
        TreesDoNotFilter(node.nodes[k], ci);
      }
      AndSteps(node, ci);
    } else {
      OthersDoNotFilter(node, ci);
    }
  }

  lemma OthersDoNotFilter(node: QueryNode, ci: bool)
    requires !node.And?
    ensures NoFilterIn(PlanNode(node, ci).steps)
  {
    hide LookupsOf;
    match node {
      case Literal(text) => LookupsDoNotFilter(SplitWhitespace(text));
      case BoostedLiteral(text, _) => LookupsDoNotFilter(SplitWhitespace(text));
      case Near(terms, _) => LookupsDoNotFilter(terms);
      case _ =>
    }
  }

  lemma AndSteps(node: QueryNode, ci: bool)
    requires node.And?
    ensures PlanNode(node, ci).steps == StepsOf(node, |Nodes(node)|, ci)
  {
  }

  lemma {:induction false} LookupsDoNotFilter(words: seq<string>)
    ensures NoFilterIn(LookupsOf(words))
    decreases |words|
  {
    if words != [] {
      LookupsDoNotFilter(words[..|words| - 1]);
    }
  }

  lemma {:induction false} LineFilterOver(steps: seq<PlanStep>, tail: seq<PlanStep>)
    requires NoFilterIn(steps)
    ensures LineFilter(steps + tail) == LineFilter(tail)
    decreases |steps|
  {
    if steps == [] {
      assert steps + tail == tail;
    } else {
      assert (steps + tail)[1..] == steps[1..] + tail;
      LineFilterOver(steps[1..], tail);
    }
  }

  /** The lines a plan keeps are those the query asks for. */
  lemma LinesAskedFor(q: Query)
    ensures forall line :: InRange(line, LineFilter(PlanQuery(q).steps)) <==> InRange(line, q.filters)
  {
    TreesDoNotFilter(q.root, q.caseInsensitive);
    var steps := PlanNode(q.root, q.caseInsensitive).steps;
    var tail := if q.filters == NO_FILTER then [] else [Filter(q.filters)];
    assert PlanQuery(q).steps == steps + tail;
    hide PlanNode;
    LineFilterOver(steps, tail);
    assert tail != [] ==> tail[1..] == [];
  }

  // ----------------------------------------------------- where narrowing loses

  /** Negating a term that only filters takes every valid document away, once anything else narrows. */
  lemma NotOfFilterTakesAll(env: Env, plan: QueryPlan, k: nat, d: DocId)
    requires k < |plan.steps| && plan.steps[k] == Exclude(QueryPlan([], None))
    requires Allowed(env, plan, |plan.steps|).Some? && d in ValidIds(env.idx)
    ensures d !in Simple(env, plan)
  {
    hide ValidIds, StepDocs;
    var inner := QueryPlan([], None);
    assert Simple(env, inner) == ValidIds(env.idx);
    assert d in Excluded(env, inner);
    assert TakenAway(env, plan, |plan.steps|, d);
  }
}
