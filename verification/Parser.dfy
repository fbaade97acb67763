/**
  The query language (src/query/parser.rs:105-511): what a recursive descent over
  the unread text makes of it. Filters and options are kept as the raw fields
  that were written; letters beyond ASCII and boost numbers are read by functions
  the parser is given.
*/
module Parser {
  import opened Prelude
  import opened Text
  import opened QueryTree

  /** `char::is_alphanumeric` and the reading of a boost number. */
  datatype Lexicon = Lexicon(alnum: char -> bool, number: string -> Option<nat>)

  /** What the special characters are not. */
  ghost predicate Sane(lex: Lexicon) {
    && (forall c :: lex.alnum(c) ==> !IsWhitespace(c))
    && (forall c :: c as int < 0x80 ==> (lex.alnum(c) <==> IsAlnum(c)))
  }

  type Settings = seq<(string, string)>

  datatype Parsed = Parsed(node: QueryNode, rest: string, settings: Settings)

  const DEFAULT_BOOST := 2
  const DEFAULT_DISTANCE := 10

  /** A letter, digit or underscore; a colon is none whatever the lexicon says. */
  predicate WordChar(lex: Lexicon, c: char) {
    c != ':' && (lex.alnum(c) || c == '_')
  }

  // --------------------------------------------------------------- unread text

  function SkipWhitespace(rest: string): (r: string)
    ensures |r| <= |rest| && (r == "" || !IsWhitespace(r[0]))
    ensures rest == "" || !IsWhitespace(rest[0]) ==> r == rest
  {
    if rest != "" && IsWhitespace(rest[0]) then SkipWhitespace(rest[1..]) else rest
  }

  function WordLength(lex: Lexicon, rest: string): (n: nat)
    ensures n <= |rest|
  {
    if rest != "" && WordChar(lex, rest[0]) then 1 + WordLength(lex, rest[1..]) else 0
  }

  predicate EndsValue(c: char) {
    IsWhitespace(c) || c == '|' || c == ')'
  }

  predicate EndsSymbol(c: char) {
    EndsValue(c) || c == '('
  }

  function ValueLength(rest: string): (n: nat)
    ensures n <= |rest|
  {
    if rest != "" && !EndsValue(rest[0]) then 1 + ValueLength(rest[1..]) else 0
  }

  function SymbolLength(rest: string): (n: nat)
    ensures n <= |rest| && (rest != "" && !EndsSymbol(rest[0]) ==> n > 0)
  {
    if rest != "" && !EndsSymbol(rest[0]) then 1 + SymbolLength(rest[1..]) else 0
  }

  /** Characters before the next `c`, or all. */
  function LengthUpTo(rest: string, c: char): (n: nat)
    ensures n <= |rest|
  {
    if rest != "" && rest[0] != c then 1 + LengthUpTo(rest[1..], c) else 0
  }

  function Consume(rest: string, c: char): (r: string)
    ensures |r| <= |rest|
  {
    if rest != "" && rest[0] == c then rest[1..] else rest
  }

  // -------------------------------------------------------------------- numbers

  function DigitValue(c: char): (d: nat)
    ensures IsDigit(c) ==> d < 10
  {
    if c >= '0' then c as int - '0' as int else 0
  }

  function Digits(s: string, n: nat): nat
    requires n <= |s|
  {
    if n == 0 then 0 else Digits(s, n - 1) * 10 + DigitValue(s[n - 1])
  }

  predicate AllDigits(t: string) {
    forall i :: 0 <= i < |t| ==> IsDigit(t[i])
  }

  /** `parse::<u32>`: an optional plus sign and digits, within 32 bits. */
  function ParseU32(s: string): Option<nat> {
    var t := if s != "" && s[0] == '+' then s[1..] else s;
    if t != "" && AllDigits(t) && Digits(t, |t|) <= U32_MAX then Some(Digits(t, |t|)) else None
  }

  // ----------------------------------------------------------------------- near

  /** `split(',')`. */
  function SplitCommas(s: string): (r: seq<string>)
    ensures r != []
    decreases |s|
  {
    var n := LengthUpTo(s, ',');
    if n == |s| then [s] else [s[..n]] + SplitCommas(s[n + 1..])
  }

  function TrimEnd(s: string): (r: string)
    ensures |r| <= |s|
  {
    if s != "" && IsWhitespace(s[|s| - 1]) then TrimEnd(s[..|s| - 1]) else s
  }

  function Trim(s: string): string {
    TrimEnd(SkipWhitespace(s))
  }

  /** The trimmed parts that are not empty. */
  function TermsOf(parts: seq<string>): seq<string> {
    if parts == [] then []
    else (if Trim(parts[0]) != "" then [Trim(parts[0])] else []) + TermsOf(parts[1..])
  }

  /** `near:term1,term2[,distance]`. */
  function ParseNear(value: string): QueryNode {
    var parts := SplitCommas(value);
    if |parts| < 2 then Empty
    else
      var last := ParseU32(Trim(parts[|parts| - 1]));
      var terms := TermsOf(if last.Some? then parts[..|parts| - 1] else parts);
      if |terms| >= 2 then Near(terms, if last.Some? then last.value else DEFAULT_DISTANCE)
      else if |terms| == 1 then Literal(terms[0])
      else Empty
  }

  // ---------------------------------------------------------------------- terms

  const SETTING_FIELDS := {"path", "file", "name", "ext", "lang", "size", "line", "mtime", "sort", "top"}

  function ParseField(field: string, rest: string, settings: Settings): (p: Parsed)
    ensures |p.rest| <= |rest|
  {
    var n := ValueLength(rest);
    var value, lower := rest[..n], ToLower(field);
    if lower in SETTING_FIELDS then Parsed(Empty, rest[n..], settings + [(lower, value)])
    else if lower == "near" then Parsed(ParseNear(value), rest[n..], settings)
    else Parsed(Literal(field + ":" + value), rest[n..], settings)
  }

  function ParseTerm(lex: Lexicon, rest: string, settings: Settings): (p: Parsed)
    ensures |p.rest| <= |rest| && (rest != "" && !EndsSymbol(rest[0]) ==> |p.rest| < |rest|)
  {
    var n := WordLength(lex, rest);
    if n < |rest| && rest[n] == ':' then ParseField(rest[..n], rest[n + 1..], settings)
    else if n > 0 then Parsed(Literal(rest[..n]), rest[n..], settings)
    else
      var m := SymbolLength(rest);
      Parsed(if m == 0 then Empty else Literal(rest[..m]), rest[m..], settings)
  }

  function ParsePhrase(rest: string, settings: Settings): (p: Parsed)
    requires rest != "" && rest[0] == '"'
    ensures |p.rest| < |rest|
  {
    var n := LengthUpTo(rest[1..], '"');
    Parsed(Phrase(rest[1..][..n]), Consume(rest[1..][n..], '"'), settings)
  }

  predicate StartsRegex(rest: string) {
    "re:/" <= rest
  }

  function ParseRegex(rest: string, settings: Settings): (p: Parsed)
    requires StartsRegex(rest)
    ensures |p.rest| < |rest|
  {
    var n := LengthUpTo(rest[4..], '/');
    Parsed(Regex(rest[4..][..n]), Consume(rest[4..][n..], '/'), settings)
  }

  // ------------------------------------------------------------------ the levels

  /** Something the And level goes on with. */
  predicate GoesOn(rest: string) {
    rest != "" && !IsWhitespace(rest[0]) && rest[0] != ')' && rest[0] != '|'
  }

  /** A boost number followed by a colon, or none: what is left, and the boost. */
  function ParseBoost(lex: Lexicon, rest: string): (r: (nat, string))
    ensures |r.1| <= |rest|
  {
    var n := BoostLength(rest);
    if n < |rest| && rest[n] == ':' then
      (match lex.number(rest[..n]) { case Some(b) => b case None => DEFAULT_BOOST }, rest[n + 1..])
    else if n == |rest| then (DEFAULT_BOOST, "")
    else (DEFAULT_BOOST, rest)
  }

  function BoostLength(rest: string): (n: nat)
    ensures n <= |rest|
  {
    if rest != "" && (IsDigit(rest[0]) || rest[0] == '.') then 1 + BoostLength(rest[1..]) else 0
  }

  function Boosted(node: QueryNode, boost: nat): QueryNode {
    match node
    case Literal(text) => BoostedLiteral(text, boost)
    case Phrase(text) => BoostedLiteral(text, boost)
    case _ => node
  }

  function AndOf(nodes: seq<QueryNode>): QueryNode {
    if |nodes| == 0 then Empty else if |nodes| == 1 then nodes[0] else And(nodes)
  }

  function OrOf(nodes: seq<QueryNode>): QueryNode
    requires nodes != []
  {
    if |nodes| == 1 then nodes[0] else Or(nodes)
  }

  function ParseOr(lex: Lexicon, rest: string, settings: Settings): (p: Parsed)
    ensures |p.rest| <= |rest|
    decreases |rest|, 5
  {
    var first := ParseAnd(lex, rest, settings);
    OrLoop(lex, SkipWhitespace(first.rest), [first.node], first.settings)
  }

  function OrLoop(lex: Lexicon, rest: string, nodes: seq<QueryNode>, settings: Settings): (p: Parsed)
    requires nodes != []
    ensures |p.rest| <= |rest|
    decreases |rest|, 4
  {
    if rest == "" || rest[0] != '|' then Parsed(OrOf(nodes), rest, settings)
    else
      var next := ParseAnd(lex, SkipWhitespace(rest[1..]), settings);
      OrLoop(lex, SkipWhitespace(next.rest), nodes + [next.node], next.settings)
  }

  function ParseAnd(lex: Lexicon, rest: string, settings: Settings): (p: Parsed)
    ensures |p.rest| <= |rest|
    decreases |rest|, 4
  {
    AndLoop(lex, rest, [], settings)
  }

  function AndLoop(lex: Lexicon, rest: string, nodes: seq<QueryNode>, settings: Settings): (p: Parsed)
    ensures |p.rest| <= |rest|
    decreases |rest|, 3
  {
    var r := SkipWhitespace(rest);
    if !GoesOn(r) then Parsed(AndOf(nodes), r, settings)
    else
      var next := ParseUnary(lex, r, settings);
      AndLoop(lex, next.rest, nodes + [next.node], next.settings)
  }

  function ParseUnary(lex: Lexicon, rest: string, settings: Settings): (p: Parsed)
    ensures |p.rest| <= |rest| && (GoesOn(rest) ==> |p.rest| < |rest|)
    decreases |rest|, 2
  {
    var r := SkipWhitespace(rest);
    if r != "" && r[0] == '-' then
      var inner := ParsePrimary(lex, r[1..], settings);
      inner.(node := Not(inner.node))
    else if r != "" && r[0] == '^' then
      var (boost, left) := ParseBoost(lex, r[1..]);
      var inner := ParsePrimary(lex, left, settings);
      inner.(node := Boosted(inner.node, boost))
    else ParsePrimary(lex, r, settings)
  }

  function ParsePrimary(lex: Lexicon, rest: string, settings: Settings): (p: Parsed)
    ensures |p.rest| <= |rest| && (GoesOn(rest) ==> |p.rest| < |rest|)
    decreases |rest|, 1
  {
    var r := SkipWhitespace(rest);
    if r != "" && r[0] == '(' then
      var inner := ParseOr(lex, r[1..], settings);
      inner.(rest := Consume(inner.rest, ')'))
    else if r != "" && r[0] == '"' then ParsePhrase(r, settings)
    else if StartsRegex(r) then ParseRegex(r, settings)
    else ParseTerm(lex, r, settings)
  }

  /** `parse_query`: what is left unread after the outermost level is dropped. */
  function ParseQuery(lex: Lexicon, input: string): (QueryNode, Settings) {
    var p := ParseOr(lex, input, []);
    (p.node, p.settings)
  }

  /** The text from `start` on, divided at `at`. */
  lemma Behind(input: string, start: nat, at: nat)
    requires start <= at <= |input|
    ensures |input[start..]| == |input| - start
    ensures input[start..][at - start..] == input[at..] && input[start..][..at - start] == input[start..at]
    ensures at < |input| ==> input[start..][at - start] == input[at]
  {
  }

  // ------------------------------------------------------------------- the parser

  class QueryParser {
    const input: string
    const lex: Lexicon
    var pos: nat
    var settings: Settings

    ghost predicate Valid()
      reads this
    {
      pos <= |input|
    }

    function Rest(): string
      requires pos <= |input|
      reads this
    {
      input[pos..]
    }

    constructor (text: string, lexicon: Lexicon)
      ensures Valid() && input == text && lex == lexicon && pos == 0 && settings == []
    {
      input, lex, pos, settings := text, lexicon, 0, [];
    }

    method Advance()
      requires Valid() && Rest() != ""
      modifies this`pos
      ensures Valid() && Rest() == old(Rest())[1..]
    {
      pos := pos + 1;
    }

    method ConsumeChar(expected: char) returns (consumed: bool)
      requires Valid()
      modifies this`pos
      ensures Valid() && Rest() == Consume(old(Rest()), expected)
      ensures consumed <==> old(Rest()) != "" && old(Rest())[0] == expected
    {
      consumed := pos < |input| && input[pos] == expected;
      if consumed {
        Advance();
      }
    }

    method SkipSpaces()
      requires Valid()
      modifies this`pos
      ensures Valid() && Rest() == SkipWhitespace(old(Rest()))
    {
      while pos < |input| && IsWhitespace(input[pos])
        invariant Valid() && SkipWhitespace(Rest()) == SkipWhitespace(old(Rest()))
        decreases |input| - pos
      {
        Advance();
      }
    }

    method TakeValue() returns (value: string)
      requires Valid()
      modifies this`pos
      ensures Valid() && var n := ValueLength(old(Rest())); value == old(Rest())[..n] && Rest() == old(Rest())[n..]
    {
      var start := pos;
      while pos < |input| && !EndsValue(input[pos])
        invariant Valid() && start <= pos && ValueLength(input[start..]) == pos - start + ValueLength(Rest())
        decreases |input| - pos
      {
        Advance();
      }
      value := input[start..pos];
      assert input[start..][pos - start..] == Rest();
    }

    method TakeSymbol() returns (value: string)
      requires Valid()
      modifies this`pos
      ensures Valid() && var n := SymbolLength(old(Rest())); value == old(Rest())[..n] && Rest() == old(Rest())[n..]
    {
      var start := pos;
      while pos < |input| && !EndsSymbol(input[pos])
        invariant Valid() && start <= pos && SymbolLength(input[start..]) == pos - start + SymbolLength(Rest())
        decreases |input| - pos
      {
        Advance();
      }
      value := input[start..pos];
      assert input[start..][pos - start..] == Rest();
    }

    method TakeUpTo(c: char) returns (value: string)
      requires Valid()
      modifies this`pos
      ensures Valid() && var n := LengthUpTo(old(Rest()), c); value == old(Rest())[..n] && Rest() == old(Rest())[n..]
    {
      var start := pos;
      while pos < |input| && input[pos] != c
        invariant Valid() && start <= pos && LengthUpTo(input[start..], c) == pos - start + LengthUpTo(Rest(), c)
        decreases |input| - pos
      {
        Advance();
      }
      value := input[start..pos];
      assert input[start..][pos - start..] == Rest();
    }

    method FieldOf(field: string) returns (node: QueryNode)
      requires Valid()
      modifies this`pos, this`settings
      ensures Valid() && Parsed(node, Rest(), settings) == ParseField(field, old(Rest()), old(settings))
    {
      var value := TakeValue();
      var lower := ToLower(field);
      if lower in SETTING_FIELDS {
        settings := settings + [(lower, value)];
        node := Empty;
      } else if lower == "near" {
        node := ParseNear(value);
      } else {
        node := Literal(field + ":" + value);
      }
    }

    method Term() returns (node: QueryNode)
      requires Valid()
      modifies this`pos, this`settings
      ensures Valid() && Parsed(node, Rest(), settings) == ParseTerm(lex, old(Rest()), old(settings))
    {
      hide WordChar, ParseField, SymbolLength, ParseTerm, WordLength, WordUpTo;
      var start := pos;
      WordBegins(lex, input, start);
      while pos < |input|
        invariant Valid() && start <= pos && settings == old(settings) && WordUpTo(lex, input, start, pos)
        decreases |input| - pos
      {
        var ch := input[pos];
        if ch == ':' {
          var at := pos;
          FieldTerm(lex, input, start, at, settings);
          Advance();
          node := FieldOf(input[start..at]);
          return;
        }
        if !WordChar(lex, ch) {
          break;
        }
        WordGoesOn(lex, input, start, pos);
        Advance();
      }
      var word := input[start..pos];
      if word == "" {
        SymbolTerm(lex, input, start, settings);
        var symbol := TakeSymbol();
        node := if symbol == "" then Empty else Literal(symbol);
      } else {
        WordTerm(lex, input, start, pos, settings);
        node := Literal(word);
      }
    }

    method PhraseTerm() returns (node: QueryNode)
      requires Valid() && Rest() != "" && Rest()[0] == '"'
      modifies this`pos
      ensures Valid() && Parsed(node, Rest(), settings) == ParsePhrase(old(Rest()), settings)
    {
      var entered := ConsumeChar('"');
      var phrase := TakeUpTo('"');
      var closed := ConsumeChar('"');
      node := Phrase(phrase);
    }

    method RegexTerm() returns (node: QueryNode)
      requires Valid() && StartsRegex(Rest())
      modifies this`pos
      ensures Valid() && Parsed(node, Rest(), settings) == ParseRegex(old(Rest()), settings)
    {
      pos := pos + 4;
      assert Rest() == old(Rest())[4..];
      var pattern := TakeUpTo('/');
      var closed := ConsumeChar('/');
      node := Regex(pattern);
    }

    /** A boost number before a colon; without the colon what was read is put back. */
    method Boost() returns (boost: nat)
      requires Valid()
      modifies this`pos
      ensures Valid() && (boost, Rest()) == ParseBoost(lex, old(Rest()))
    {
      boost := DEFAULT_BOOST;
      var boostStart := pos;
      while pos < |input|
        invariant Valid() && boostStart <= pos && boost == DEFAULT_BOOST
        invariant BoostLength(input[boostStart..]) == pos - boostStart + BoostLength(Rest())
        decreases |input| - pos
      {
        var ch := input[pos];
        if IsDigit(ch) || ch == '.' {
          Advance();
        } else if ch == ':' {
          assert input[boostStart..][..pos - boostStart] == input[boostStart..pos];
          var b := lex.number(input[boostStart..pos]);
          if b.Some? {
            boost := b.value;
          }
          var at := pos;
          Advance();
          assert input[boostStart..][at - boostStart + 1..] == Rest();
          return;
        } else {
          assert input[boostStart..][pos - boostStart] == ch;
          pos := boostStart;
          return;
        }
      }
    }

    method Primary() returns (node: QueryNode)
      requires Valid()
      modifies this`pos, this`settings
      ensures Valid() && Parsed(node, Rest(), settings) == ParsePrimary(lex, old(Rest()), old(settings))
      decreases |input| - pos, 1
    {
      hide ParseOr, ParseTerm, ParsePhrase, ParseRegex, SkipWhitespace;
      SkipSpaces();
      ghost var rest := Rest();
      var entered := ConsumeChar('(');
      if entered {
        node := OrLevel();
        var closed := ConsumeChar(')');
        return;
      }
      assert Rest() == rest;
      if pos < |input| && input[pos] == '"' {
        node := PhraseTerm();
      } else if StartsRegex(Rest()) {
        node := RegexTerm();
      } else {
        node := Term();
      }
    }

    method Unary() returns (node: QueryNode)
      requires Valid()
      modifies this`pos, this`settings
      ensures Valid() && Parsed(node, Rest(), settings) == ParseUnary(lex, old(Rest()), old(settings))
      ensures |Rest()| <= |old(Rest())| && (GoesOn(old(Rest())) ==> |Rest()| < |old(Rest())|)
      decreases |input| - pos, 2
    {
      hide ParsePrimary, ParseBoost, SkipWhitespace;
      SkipSpaces();
      ghost var rest := Rest();
      var minus := ConsumeChar('-');
      if minus {
        var inner := Primary();
        node := Not(inner);
        return;
      }
      assert Rest() == rest;
      var caret := ConsumeChar('^');
      if caret {
        var boost := Boost();
        var inner := Primary();
        node := Boosted(inner, boost);
        return;
      }
      assert Rest() == rest;
      node := Primary();
    }

    method AndLevel() returns (node: QueryNode)
      requires Valid()
      modifies this`pos, this`settings
      ensures Valid() && Parsed(node, Rest(), settings) == ParseAnd(lex, old(Rest()), old(settings))
      ensures |Rest()| <= |old(Rest())|
      decreases |input| - pos, 4
    {
      hide ParseUnary, SkipWhitespace, ParseAnd;
      ParseAndIs(lex, Rest(), settings);
      var nodes: seq<QueryNode> := [];
      var more := true;
      while more
        invariant Valid() && |Rest()| <= |old(Rest())|
        invariant more ==> AndLoop(lex, Rest(), nodes, settings) == AndLoop(lex, old(Rest()), [], old(settings))
        invariant !more ==> Parsed(AndOf(nodes), Rest(), settings) == AndLoop(lex, old(Rest()), [], old(settings))
        decreases more, |input| - pos
      {
        SkipSpaces();
        if pos == |input| || input[pos] == ')' || input[pos] == '|' {
          more := false;
        } else {
          var next := Unary();
          nodes := nodes + [next];
        }
      }
      node := AndOf(nodes);
    }

    method OrLevel() returns (node: QueryNode)
      requires Valid()
      modifies this`pos, this`settings
      ensures Valid() && Parsed(node, Rest(), settings) == ParseOr(lex, old(Rest()), old(settings))
      ensures |Rest()| <= |old(Rest())|
      decreases |input| - pos, 5
    {
      hide ParseAnd, SkipWhitespace, ParseOr;
      ParseOrIs(lex, Rest(), settings);
      ghost var all := ParseOr(lex, Rest(), settings);
      var first := AndLevel();
      var nodes := [first];
      SkipSpaces();
      var bar := true;
      while bar
        invariant Valid() && |Rest()| <= |old(Rest())| && nodes != []
        invariant bar ==> OrLoop(lex, Rest(), nodes, settings) == all
        invariant !bar ==> Parsed(OrOf(nodes), Rest(), settings) == all
        decreases bar, |input| - pos
      {
        ghost var rest := Rest();
        bar := ConsumeChar('|');
        if bar {
          SkipSpaces();
          var next := AndLevel();
          nodes := nodes + [next];
          SkipSpaces();
        } else {
          assert Rest() == rest;
        }
      }
      node := OrOf(nodes);
    }

    method Parse() returns (root: QueryNode)
      requires Valid() && pos == 0 && settings == []
      modifies this`pos, this`settings
      ensures (root, settings) == ParseQuery(lex, input)
    {
      assert Rest() == input;
      root := OrLevel();
    }
  }

  lemma ParseAndIs(lex: Lexicon, rest: string, settings: Settings)
    ensures ParseAnd(lex, rest, settings) == AndLoop(lex, rest, [], settings)
  {
  }

  lemma ParseOrIs(lex: Lexicon, rest: string, settings: Settings)
    ensures var first := ParseAnd(lex, rest, settings);
            ParseOr(lex, rest, settings) == OrLoop(lex, SkipWhitespace(first.rest), [first.node], first.settings)
  {
  }

  /** The word that starts at `start` has been read up to `at`. */
  predicate WordUpTo(lex: Lexicon, input: string, start: nat, at: nat) {
    start <= at <= |input| && WordLength(lex, input[start..]) == at - start + WordLength(lex, input[at..])
  }

  lemma WordBegins(lex: Lexicon, input: string, start: nat)
    requires start <= |input|
    ensures WordUpTo(lex, input, start, start)
  {
  }

  lemma WordGoesOn(lex: Lexicon, input: string, start: nat, at: nat)
    requires WordUpTo(lex, input, start, at) && at < |input| && WordChar(lex, input[at])
    ensures WordUpTo(lex, input, start, at + 1)
  {
    assert input[at..][1..] == input[at + 1..];
  }

  lemma WordEnds(lex: Lexicon, input: string, start: nat, at: nat)
    requires WordUpTo(lex, input, start, at) && (at < |input| ==> !WordChar(lex, input[at]))
    ensures WordLength(lex, input[start..]) == at - start
  {
  }

  lemma FieldTerm(lex: Lexicon, input: string, start: nat, at: nat, settings: Settings)
    requires WordUpTo(lex, input, start, at) && at < |input| && input[at] == ':'
    ensures ParseTerm(lex, input[start..], settings) == ParseField(input[start..at], input[at + 1..], settings)
  {
    WordEnds(lex, input, start, at);
    Behind(input, start, at);
    Behind(input, start, at + 1);
    hide WordLength, WordChar, ParseField, SymbolLength;
  }

  lemma WordTerm(lex: Lexicon, input: string, start: nat, at: nat, settings: Settings)
    requires WordUpTo(lex, input, start, at) && start < at
    requires at < |input| ==> !WordChar(lex, input[at]) && input[at] != ':'
    ensures ParseTerm(lex, input[start..], settings) == Parsed(Literal(input[start..at]), input[at..], settings)
  {
    WordEnds(lex, input, start, at);
    Behind(input, start, at);
    hide WordLength, WordChar, ParseField, SymbolLength;
  }

  lemma SymbolTerm(lex: Lexicon, input: string, start: nat, settings: Settings)
    requires start <= |input| && (start < |input| ==> !WordChar(lex, input[start]) && input[start] != ':')
    ensures var rest := input[start..];
            var m := SymbolLength(rest);
            ParseTerm(lex, rest, settings) == Parsed(if m == 0 then Empty else Literal(rest[..m]), rest[m..], settings)
  {
    WordEnds(lex, input, start, start);
    hide WordLength, WordChar, ParseField, SymbolLength;
  }
}
