/**
  Query planning (src/query/planner.rs): a query tree becomes narrowing steps on
  the index plus a verification tree for the files that are left.
*/
module Planner {
  import opened Prelude
  import opened Text
  import opened QueryTree
  import opened Index
  import opened Verify
  import opened Trigrams
  import opened Reader
  import opened Tokenizer
  import RegexPrefix

  datatype FilterStep = FilterStep(
    pathGlob: Option<string>,
    filename: Option<string>,
    extension: Option<string>,
    language: Option<nat>,
    sizeMin: Option<nat>,
    sizeMax: Option<nat>,
    mtimeMin: Option<nat>,
    mtimeMax: Option<nat>,
    lineStart: Option<nat>,
    lineEnd: Option<nat>)

  const NO_FILTER := FilterStep(None, None, None, None, None, None, None, None, None, None)

  datatype PlanStep =
    | TrigramIntersect(trigrams: seq<Trigram>)
    | TokenLookup(token: Token)
    | Union(plans: seq<QueryPlan>)
    | TokenOrTrigram(token: Token, subTokens: set<Token>, trigrams: seq<Trigram>)
    | Intersect(plans: seq<QueryPlan>)
    | Exclude(plan: QueryPlan)
    | Filter(filter: FilterStep)
    | PositionalPhrase(phrase: Reader.Phrase)

  datatype QueryPlan = QueryPlan(steps: seq<PlanStep>, verification: Option<VerificationStep>)

  // --------------------------------------------------------------------- words

  /** Words of a text after its first `n` characters: those closed, and the one still open. */
  function SplitFirst(text: string, n: nat): (seq<string>, string)
    requires n <= |text|
  {
    if n == 0 then ([], "")
    else
      var (words, open) := SplitFirst(text, n - 1);
      if !IsWhitespace(text[n - 1]) then (words, open + [text[n - 1]])
      else if open == "" then (words, "")
      else (words + [open], "")
  }

  /** `split_whitespace`. */
  function SplitWhitespace(text: string): seq<string> {
    var (words, open) := SplitFirst(text, |text|);
    if open == "" then words else words + [open]
  }

  predicate IsSingleWord(text: string) {
    (forall i :: 0 <= i < |text| ==> !IsWhitespace(text[i])) && |Utf8(text)| >= 2
  }

  function LookupsOf(words: seq<string>): seq<PlanStep> {
    if words == [] then []
    else
      LookupsOf(words[..|words| - 1]) +
      if |Utf8(words[|words| - 1])| >= 2 then [TokenLookup(ToLower(words[|words| - 1]))] else []
  }

  /** Bare words narrow by tokens and exact-case trigrams, more than one word by trigrams or tokens. */
  function LiteralSteps(text: string, caseInsensitive: bool): seq<PlanStep> {
    if IsSingleWord(text) then
      var trigrams := QueryTrigrams(Utf8(text));
      if trigrams != [] then [TokenOrTrigram(ToLower(text), Names(Tokens(text)), trigrams)]
      else [TokenLookup(ToLower(text))]
    else
      var trigrams := if caseInsensitive then [] else QueryTrigrams(Utf8(text));
      if trigrams == [] then LookupsOf(SplitWhitespace(text)) else [TrigramIntersect(trigrams)]
  }

  function AllTrigrams(terms: seq<string>): seq<Trigram> {
    if terms == [] then [] else AllTrigrams(terms[..|terms| - 1]) + QueryTrigrams(Utf8(terms[|terms| - 1]))
  }

  function NearSteps(terms: seq<string>, caseInsensitive: bool): seq<PlanStep> {
    var trigrams := if caseInsensitive then [] else SortDedup(AllTrigrams(terms));
    if trigrams == [] then LookupsOf(terms) else [TrigramIntersect(trigrams)]
  }

  function PhraseSteps(text: string, caseInsensitive: bool): seq<PlanStep> {
    var tokens, trigrams := Tokens(text), QueryTrigrams(Utf8(text));
    if caseInsensitive then
      if |tokens| >= 2 then [PositionalPhrase(tokens)]
      else if |tokens| == 1 then
        if trigrams == [] then [TokenLookup(tokens[0].0)] else [TokenOrTrigram(tokens[0].0, Names(tokens), trigrams)]
      else []
    else
      (if trigrams != [] then [TrigramIntersect(trigrams)] else []) +
      if |tokens| >= 2 then [PositionalPhrase(tokens)] else []
  }

  function RegexSteps(pattern: string, caseInsensitive: bool): seq<PlanStep> {
    if caseInsensitive then []
    else
      match RegexPrefix.ExtractPrefix(pattern)
      case None => []
      case Some(prefix) =>
        var trigrams := QueryTrigrams(Utf8(prefix));
        if trigrams != [] then [TrigramIntersect(trigrams)] else []
  }

  const CASE_FLAG := "(?i)"

  function RegexPattern(pattern: string, caseInsensitive: bool): string {
    if caseInsensitive && !(CASE_FLAG <= pattern) then CASE_FLAG + pattern else pattern
  }

  // ------------------------------------------------------------------ planning

  /** One verification stands for itself, several are joined. */
  function Joined(vs: seq<VerificationStep>, all: bool): Option<VerificationStep> {
    if |vs| == 0 then None
    else if |vs| == 1 then Some(vs[0])
    else Some(if all then VerificationStep.And(vs) else VerificationStep.Or(vs))
  }

  /** The verifications of the first `n` children that have one. */
  function VerificationsOf(node: QueryNode, n: nat, ci: bool): seq<VerificationStep>
    requires n <= |Nodes(node)|
    decreases node, n
  {
    if n == 0 then []
    else
      VerificationsOf(node, n - 1, ci) +
      match PlanNode(Nodes(node)[n - 1], ci).verification { case None => [] case Some(v) => [v] }
  }

  function StepsOf(node: QueryNode, n: nat, ci: bool): seq<PlanStep>
    requires n <= |Nodes(node)|
    decreases node, n
  {
    if n == 0 then [] else StepsOf(node, n - 1, ci) + PlanNode(Nodes(node)[n - 1], ci).steps
  }

  /** The plans of the first `n` children that have steps. */
  function SubPlans(node: QueryNode, n: nat, ci: bool): seq<QueryPlan>
    requires n <= |Nodes(node)|
    decreases node, n
  {
    if n == 0 then []
    else
      SubPlans(node, n - 1, ci) +
      if PlanNode(Nodes(node)[n - 1], ci).steps != [] then [PlanNode(Nodes(node)[n - 1], ci)] else []
  }

  /** `plan_node`: narrowing steps and verification of a query tree. */
  function PlanNode(node: QueryNode, ci: bool): QueryPlan
    decreases node, |Nodes(node)| + 1
  {
    match node
    case Empty => QueryPlan([], None)
    case Literal(text) => QueryPlan(LiteralSteps(text, ci), Some(VerificationStep.Literal(text)))
    case BoostedLiteral(text, boost) =>
      QueryPlan(LiteralSteps(text, ci), Some(VerificationStep.BoostedLiteral(text, boost)))
    case Near(terms, distance) => QueryPlan(NearSteps(terms, ci), Some(VerificationStep.Near(terms, distance)))
    case Phrase(text) => QueryPlan(PhraseSteps(text, ci), Some(VerificationStep.Phrase(text, ci)))
    case Regex(pattern) => QueryPlan(RegexSteps(pattern, ci), Some(VerificationStep.Regex(RegexPattern(pattern, ci))))
    case And(nodes) => QueryPlan(StepsOf(node, |nodes|, ci), Joined(VerificationsOf(node, |nodes|, ci), true))
    case Or(nodes) =>
      var plans := SubPlans(node, |nodes|, ci);
      QueryPlan(if plans == [] then [] else [Union(plans)], Joined(VerificationsOf(node, |nodes|, ci), false))
    case Not(inner) =>
      var plan := PlanNode(inner, ci);
      QueryPlan([Exclude(plan)],
                if plan.verification.Some? then Some(VerificationStep.Not(plan.verification.value)) else None)
  }

  datatype Query = Query(root: QueryNode, filters: FilterStep, caseInsensitive: bool)

  /** Filters run after the narrowing steps. */
  function PlanQuery(q: Query): QueryPlan {
    var plan := PlanNode(q.root, q.caseInsensitive);
    QueryPlan(plan.steps + if q.filters == NO_FILTER then [] else [Filter(q.filters)], plan.verification)
  }

  // ---------------------------------------------------------- what a query means

  /** Whether a tree says anything of a file's content. */
  predicate Says(node: QueryNode) {
    match node
    case Empty => false
    case And(nodes) => exists k :: 0 <= k < |nodes| && Says(nodes[k])
    case Or(nodes) => exists k :: 0 <= k < |nodes| && Says(nodes[k])
    case Not(inner) => Says(inner)
    case _ => true
  }

  /** Whether a content is wanted; parts that say nothing are passed over. */
  ghost predicate Wanted(node: QueryNode, ci: bool, content: seq<Byte>, engine: Engine) {
    match node
    case Empty => true
    case Literal(text) => HasMatch(content, VerificationStep.Literal(text), engine)
    case BoostedLiteral(text, boost) => HasMatch(content, VerificationStep.Literal(text), engine)
    case Near(terms, distance) => HasMatch(content, VerificationStep.Near(terms, distance), engine)
    case Phrase(text) => HasMatch(content, VerificationStep.Phrase(text, ci), engine)
    case Regex(pattern) => engine.isMatch(RegexPattern(pattern, ci), content)
    case And(nodes) => forall k :: 0 <= k < |nodes| && Says(nodes[k]) ==> Wanted(nodes[k], ci, content, engine)
    case Or(nodes) =>
      || (forall k :: 0 <= k < |nodes| ==> !Says(nodes[k]))
      || exists k :: 0 <= k < |nodes| && Says(nodes[k]) && Wanted(nodes[k], ci, content, engine)
    case Not(inner) => Says(inner) ==> !Wanted(inner, ci, content, engine)
  }

  ghost predicate Accepts(v: Option<VerificationStep>, content: seq<Byte>, engine: Engine) {
    v.Some? ==> HasMatch(content, v.value, engine)
  }

  lemma JoinedMeans(vs: seq<VerificationStep>, all: bool, content: seq<Byte>, engine: Engine)
    ensures Joined(vs, all).Some? <==> vs != []
    ensures all ==> (Accepts(Joined(vs, all), content, engine) <==>
            forall k :: 0 <= k < |vs| ==> HasMatch(content, vs[k], engine))
    ensures !all && vs != [] ==>
            (HasMatch(content, Joined(vs, all).value, engine) <==>
              exists k :: 0 <= k < |vs| && HasMatch(content, vs[k], engine))
  {
  }

  lemma {:induction false} VerificationIn(node: QueryNode, n: nat, ci: bool, v: VerificationStep)
    requires n <= |Nodes(node)|
    ensures v in VerificationsOf(node, n, ci) <==>
            exists k :: 0 <= k < n && PlanNode(Nodes(node)[k], ci).verification == Some(v)
    decreases n
  {
    hide PlanNode;
    if n > 0 {
      VerificationIn(node, n - 1, ci, v);
    }
  }

  /** The planned verification of a tree says exactly what the tree means. */
  ghost predicate Means(node: QueryNode, ci: bool, content: seq<Byte>, engine: Engine) {
    && (PlanNode(node, ci).verification.Some? <==> Says(node))
    && (Says(node) ==>
        (HasMatch(content, PlanNode(node, ci).verification.value, engine) <==> Wanted(node, ci, content, engine)))
  }

  lemma {:induction false} VerificationMeans(node: QueryNode, ci: bool, content: seq<Byte>, engine: Engine)
    ensures Means(node, ci, content, engine)
    decreases node
  {
    match node {
      case And(nodes) => JoinMeans(node, ci, content, engine);
      case Or(nodes) => JoinMeans(node, ci, content, engine);
      case Not(inner) => VerificationMeans(inner, ci, content, engine);
      case _ =>
    }
  }

  /** Each joined verification is some child's. */
  lemma SourceOf(node: QueryNode, ci: bool, j: nat) returns (k: nat)
    requires j < |VerificationsOf(node, |Nodes(node)|, ci)|
    ensures k < |Nodes(node)|
            && PlanNode(Nodes(node)[k], ci).verification == Some(VerificationsOf(node, |Nodes(node)|, ci)[j])
  {
    hide PlanNode, VerificationsOf;
    var n := |Nodes(node)|;
    VerificationIn(node, n, ci, VerificationsOf(node, n, ci)[j]);
    k :| 0 <= k < n && PlanNode(Nodes(node)[k], ci).verification == Some(VerificationsOf(node, n, ci)[j]);
  }

  /** Each child's verification is among those joined. */
  lemma PlaceOf(node: QueryNode, ci: bool, k: nat) returns (j: nat)
    requires k < |Nodes(node)| && PlanNode(Nodes(node)[k], ci).verification.Some?
    ensures j < |VerificationsOf(node, |Nodes(node)|, ci)|
    ensures VerificationsOf(node, |Nodes(node)|, ci)[j] == PlanNode(Nodes(node)[k], ci).verification.value
  {
    hide PlanNode, VerificationsOf;
    var n := |Nodes(node)|;
    VerificationIn(node, n, ci, PlanNode(Nodes(node)[k], ci).verification.value);
    j :| 0 <= j < |VerificationsOf(node, n, ci)|
      && VerificationsOf(node, n, ci)[j] == PlanNode(Nodes(node)[k], ci).verification.value;
  }

  lemma {:induction false} JoinMeans(node: QueryNode, ci: bool, content: seq<Byte>, engine: Engine)
    requires node.And? || node.Or?
    ensures Means(node, ci, content, engine)
    decreases node, 0
  {
    var vs := VerificationsOf(node, |Nodes(node)|, ci);
    assert PlanNode(node, ci).verification == Joined(vs, node.And?);
    forall k | 0 <= k < |Nodes(node)|
      ensures Means(Nodes(node)[k], ci, content, engine)
    {
      VerificationMeans(Nodes(node)[k], ci, content, engine);
    }
    hide PlanNode, HasMatch, Joined, VerificationsOf, Wanted, Says;
    JoinedMeans(vs, node.And?, content, engine);
    JoinedSays(node, ci, content, engine);
    if Says(node) {
      if node.And? {
        AndWants(node, ci, content, engine);
      } else {
        OrWants(node, ci, content, engine);
      }
    }
  }

  lemma JoinedSays(node: QueryNode, ci: bool, content: seq<Byte>, engine: Engine)
    requires node.And? || node.Or?
    requires forall k :: 0 <= k < |Nodes(node)| ==> Means(Nodes(node)[k], ci, content, engine)
    ensures VerificationsOf(node, |Nodes(node)|, ci) != [] <==> Says(node)
  {
    hide PlanNode, HasMatch, Wanted, VerificationsOf;
    var vs := VerificationsOf(node, |Nodes(node)|, ci);
    if vs != [] {
      var k := SourceOf(node, ci, 0);
      assert Means(Nodes(node)[k], ci, content, engine);
    }
    if Says(node) {
      var k :| 0 <= k < |Nodes(node)| && Says(Nodes(node)[k]);
      assert Means(Nodes(node)[k], ci, content, engine);
      var j := PlaceOf(node, ci, k);
    }
  }

  lemma AndWants(node: QueryNode, ci: bool, content: seq<Byte>, engine: Engine)
    requires node.And?
    requires forall k :: 0 <= k < |Nodes(node)| ==> Means(Nodes(node)[k], ci, content, engine)
    ensures var vs := VerificationsOf(node, |Nodes(node)|, ci);
            Wanted(node, ci, content, engine) <==> forall j :: 0 <= j < |vs| ==> HasMatch(content, vs[j], engine)
  {
    hide PlanNode, HasMatch, VerificationsOf;
    var vs := VerificationsOf(node, |Nodes(node)|, ci);
    if Wanted(node, ci, content, engine) {
      forall j | 0 <= j < |vs|
        ensures HasMatch(content, vs[j], engine)
      {
        var k := SourceOf(node, ci, j);
        assert Means(Nodes(node)[k], ci, content, engine);
      }
    }
    if forall j :: 0 <= j < |vs| ==> HasMatch(content, vs[j], engine) {
      forall k | 0 <= k < |Nodes(node)| && Says(Nodes(node)[k])
        ensures Wanted(Nodes(node)[k], ci, content, engine)
      {
        assert Means(Nodes(node)[k], ci, content, engine);
        var j := PlaceOf(node, ci, k);
      }
    }
  }

  lemma OrWants(node: QueryNode, ci: bool, content: seq<Byte>, engine: Engine)
    requires node.Or? && Says(node)
    requires forall k :: 0 <= k < |Nodes(node)| ==> Means(Nodes(node)[k], ci, content, engine)
    ensures var vs := VerificationsOf(node, |Nodes(node)|, ci);
            Wanted(node, ci, content, engine) <==> exists j :: 0 <= j < |vs| && HasMatch(content, vs[j], engine)
  {
    hide PlanNode, HasMatch, VerificationsOf;
    var vs := VerificationsOf(node, |Nodes(node)|, ci);
    if Wanted(node, ci, content, engine) {
      var k :| 0 <= k < |Nodes(node)| && Says(Nodes(node)[k]) && Wanted(Nodes(node)[k], ci, content, engine);
      assert Means(Nodes(node)[k], ci, content, engine);
      var j := PlaceOf(node, ci, k);
      assert HasMatch(content, vs[j], engine);
    }
    if j :| 0 <= j < |vs| && HasMatch(content, vs[j], engine) {
      var k := SourceOf(node, ci, j);
      assert Means(Nodes(node)[k], ci, content, engine);
    }
  }

  // ----------------------------------------------------------------- regex flags

  /** A regex is searched as written; under -i, with the flag in front unless it starts with it. */
  lemma FlagKept(pattern: string, ci: bool)
    ensures var v := PlanNode(QueryNode.Regex(pattern), ci).verification;
            v.Some? && v.value.Regex? && var searched := v.value.pattern;
            && (!ci || "(?i)" <= pattern ==> searched == pattern)
            && (ci ==> "(?i)" <= searched && (searched == pattern || searched == "(?i)" + pattern))
  {
  }
}
