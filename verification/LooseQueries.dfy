/**
  Queries cut short or put together oddly (src/query/parser.rs:105-511): what is
  left open is closed by the end of the text, a near without enough terms is
  something less, and a boost raises words and quoted texts only.
*/
module LooseQueries {
  import opened Prelude
  import opened Text
  import opened QueryTree
  import opened Parser
  import opened Printing

  /** A text that is one part and nothing more. */
  lemma Alone(lex: Lexicon, text: string, node: QueryNode, f: Settings)
    requires GoesOn(text) && ParseUnary(lex, text, []) == Parsed(node, "", f)
    ensures ParseQuery(lex, text) == (node, f)
  {
    hide ParseUnary;
    AndTakes(lex, text, node, "", [], [], f);
    AndStops(lex, "", [] + [node], f);
    assert [] + [node] == [node];
    OnlyBranch(lex, text, node, f);
  }

  lemma OnlyBranch(lex: Lexicon, text: string, node: QueryNode, f: Settings)
    requires AndLoop(lex, text, [], []) == Parsed(node, "", f)
    ensures ParseQuery(lex, text) == (node, f)
  {
    hide AndLoop;
    OrStops(lex, "", [node], f);
    assert ParseAnd(lex, text, []) == Parsed(node, "", f);
  }

  /** The same of a part without a sign. */
  lemma PrimaryAlone(lex: Lexicon, text: string, node: QueryNode, f: Settings)
    requires GoesOn(text) && text[0] != '-' && text[0] != '^'
    requires ParsePrimary(lex, text, []) == Parsed(node, "", f)
    ensures ParseQuery(lex, text) == (node, f)
  {
    assert ParseUnary(lex, text, []) == ParsePrimary(lex, text, []) by { hide ParsePrimary, ParseBoost; }
    Alone(lex, text, node, f);
  }

  // ------------------------------------------------------------ what is left open

  /** A quotation mark without a second one quotes all that follows. */
  lemma OpenQuote(lex: Lexicon, t: string)
    requires '"' !in t
    ensures ParseQuery(lex, "\"" + t) == (Phrase(t), [])
  {
    var text := "\"" + t;
    assert text[1..] == t && t + "" == t;
    UpToRead(t, '"', "");
    assert t[|t|..] == "";
    assert ParsePhrase(text, []) == Parsed(Phrase(t), "", []);
    PrimaryAlone(lex, text, Phrase(t), []) by { hide ParsePhrase, ParseTerm, ParseOr, ParseRegex; }
  }

  /** A regex without a second slash goes to the end. */
  lemma OpenRegex(lex: Lexicon, p: string)
    requires '/' !in p
    ensures ParseQuery(lex, "re:/" + p) == (Regex(p), [])
  {
    var text := "re:/" + p;
    assert text[4..] == p && p + "" == p && text[..4] == "re:/" && text[0] == 'r';
    UpToRead(p, '/', "");
    assert p[|p|..] == "";
    assert ParseRegex(text, []) == Parsed(Regex(p), "", []);
    PrimaryAlone(lex, text, Regex(p), []) by { hide ParsePhrase, ParseTerm, ParseOr, ParseRegex; }
  }

  /** A parenthesis never closed makes no difference. */
  lemma OpenParen(lex: Lexicon, w: Written)
    requires ReadsNumbers(lex) && Canonical(lex, w)
    ensures ParseQuery(lex, "(" + Show(w)) == ParseQuery(lex, Show(w)) == (NodeOf(w), SettingsOf(w))
  {
    ParsePrinted(lex, w);
    OrRead(lex, w, "", []);
    assert Show(w) + "" == Show(w) && [] + SettingsOf(w) == SettingsOf(w);
    var text := "(" + Show(w);
    hide Show, NodeOf, SettingsOf, Canonical, ReadsNumbers, ParseQuery;
    assert text[1..] == Show(w);
    assert ParsePrimary(lex, text, []) == Parsed(NodeOf(w), "", SettingsOf(w)) by { hide ParseOr; }
    hide ParsePrimary;
    PrimaryAlone(lex, text, NodeOf(w), SettingsOf(w));
  }

  /** White space alone asks for nothing. */
  lemma {:induction false} BlankAsksNothing(lex: Lexicon, text: string)
    requires forall i :: 0 <= i < |text| ==> IsWhitespace(text[i])
    ensures SkipWhitespace(text) == "" && ParseQuery(lex, text) == (Empty, [])
    decreases |text|
  {
    if text != "" {
      BlankAsksNothing(lex, text[1..]);
    }
    hide ParseUnary, ParseQuery;
    assert AndLoop(lex, text, [], []) == Parsed(Empty, "", []);
    OnlyBranch(lex, text, Empty, []);
  }

  // --------------------------------------------------------------- near, with less

  /** The parts that are not empty. */
  function NonEmpty(parts: seq<string>): seq<string> {
    if parts == [] then [] else (if parts[0] != "" then [parts[0]] else []) + NonEmpty(parts[1..])
  }

  predicate NearPart(t: string) {
    FieldValue(t) && ',' !in t
  }

  lemma TrimKeeps(t: string)
    requires FieldValue(t)
    ensures Trim(t) == t
  {
    if t != "" {
      NoSpaceTrim(t);
    }
  }

  lemma {:induction false} TermsAre(parts: seq<string>)
    requires forall k :: 0 <= k < |parts| ==> NearPart(parts[k])
    ensures TermsOf(parts) == NonEmpty(parts)
    decreases |parts|
  {
    if parts != [] {
      TrimKeeps(parts[0]);
      TermsAre(parts[1..]);
    }
  }

  /** Whether the last part is this number, or none. */
  ghost predicate WrittenAs(last: string, number: Option<nat>) {
    match number
    case Some(n) => last == ShowNat(n)
    case None => last == "" || NoNumber(last)
  }

  lemma ReadAs(last: string, number: Option<nat>)
    requires WrittenAs(last, number)
    ensures ParseU32(last) == if number.Some? && number.value <= 0xFFFF_FFFF then number else None
  {
    match number {
      case Some(n) => DigitsOfShown(n); hide ShowNat, Digits; assert IsDigit(ShowNat(n)[0]);
      case None => if last != "" { NoNumberRead(last); }
    }
  }

  lemma {:induction false} CommasAre(parts: seq<string>, last: string)
    requires (forall k :: 0 <= k < |parts| ==> NearPart(parts[k])) && NearPart(last)
    ensures FieldValue(Commas(parts) + last)
    decreases |parts|
  {
    if parts != [] {
      CommasAre(parts[1..], last);
      assert Commas(parts) + last == parts[0] + "," + (Commas(parts[1..]) + last);
    }
  }

  /**
    A near needs a comma and two terms beside the distance, which is a number of
    32 bits after the last comma: one term is a literal, none is nothing.
  */
  lemma NearParsed(lex: Lexicon, init: seq<string>, last: string, number: Option<nat>)
    requires ReadsNumbers(lex) && WrittenAs(last, number)
    requires (forall k :: 0 <= k < |init| ==> NearPart(init[k])) && NearPart(last)
    ensures var far := number.Some? && number.value <= 0xFFFF_FFFF;
            var terms := NonEmpty(if far then init else init + [last]);
            ParseQuery(lex, "near:" + (Commas(init) + last)) ==
            (if init == [] || terms == [] then Empty
             else if |terms| == 1 then Literal(terms[0])
             else Near(terms, if far then number.value else 10), [])
  {
    var value := Commas(init) + last;
    var text := "near:" + value;
    hide *;
    NearValueIs(init, last, number);
    Sanity(lex);
    NearIsWord(lex);
    CommasAre(init, last);
    NearText(value, "");
    assert value + "" == value && text + "" == text;
    FieldRead(lex, "near", value, []);
    NoneFollows();
    NearFieldRead(value, "", []);
    NearStarts(lex, text);
    PrimaryAlone(lex, text, ParseNear(value), []);
  }

  lemma NoneFollows()
    ensures EndsUnary("")
  {
  }

  lemma NearStarts(lex: Lexicon, text: string)
    requires text != "" && text[0] == 'n'
    ensures GoesOn(text) && text[0] != '-' && text[0] != '^'
    ensures ParsePrimary(lex, text, []) == ParseTerm(lex, text, [])
  {
    RegexLetters(text);
    TermAtPrimary(lex, text, []);
  }

  lemma NearValueIs(init: seq<string>, last: string, number: Option<nat>)
    requires WrittenAs(last, number)
    requires (forall k :: 0 <= k < |init| ==> NearPart(init[k])) && NearPart(last)
    ensures var far := number.Some? && number.value <= 0xFFFF_FFFF;
            var terms := NonEmpty(if far then init else init + [last]);
            ParseNear(Commas(init) + last) ==
            if init == [] || terms == [] then Empty
            else if |terms| == 1 then Literal(terms[0])
            else Near(terms, if far then number.value else 10)
  {
    ReadAs(last, number);
    TrimKeeps(last);
    CommasSplit(init, last);
    TermsAre(init);
    TermsAre(init + [last]);
    assert (init + [last])[..|init|] == init;
    hide NonEmpty, Commas, NearPart, WrittenAs, SplitCommas, TermsOf, Trim, ParseU32;
  }

  // ----------------------------------------------------------------------- boosts

  /** What a boost makes of a tree: words and quoted texts are raised, the rest stays as it is. */
  function RaisedBy(node: QueryNode, boost: nat): QueryNode {
    if node.Literal? || node.Phrase? then BoostedLiteral(node.text, boost) else node
  }

  predicate BoostText(number: string) {
    forall i :: 0 <= i < |number| ==> IsDigit(number[i]) || number[i] == '.'
  }

  lemma {:induction false} BoostTextRead(number: string, rest: string)
    requires BoostText(number) && (rest == "" || !(IsDigit(rest[0]) || rest[0] == '.'))
    ensures BoostLength(number + rest) == |number|
    decreases |number|
  {
    if number == "" {
      assert number + rest == rest;
    } else {
      assert (number + rest)[1..] == number[1..] + rest;
      BoostTextRead(number[1..], rest);
    }
  }

  lemma BoostedIs(node: QueryNode, boost: nat)
    ensures Boosted(node, boost) == RaisedBy(node, boost)
  {
  }

  /** Digits and dots before a colon are the boost, the usual one when they are no number. */
  lemma BoostParsed(lex: Lexicon, number: string, w: Written)
    requires ReadsNumbers(lex) && Canonical(lex, w) && BoostText(number)
    ensures var boost := if lex.number(number).Some? then lex.number(number).value else 2;
            ParseQuery(lex, "^" + (number + (":" + AtPrimary(w)))) == (RaisedBy(NodeOf(w), boost), SettingsOf(w))
  {
    var shown := AtPrimary(w);
    var after := number + (":" + shown);
    var boost := if lex.number(number).Some? then lex.number(number).value else 2;
    PrimaryRead(lex, w, "", []);
    assert shown + "" == shown && [] + SettingsOf(w) == SettingsOf(w);
    BoostTextRead(number, ":" + shown);
    Appended(number, ":" + shown);
    assert after[|number| + 1..] == shown;
    assert ParseBoost(lex, after) == (boost, shown);
    hide *;
    CaretAlone(lex, after, boost, shown, NodeOf(w), SettingsOf(w));
  }

  lemma CaretAlone(lex: Lexicon, after: string, boost: nat, left: string, node: QueryNode, f: Settings)
    requires ParseBoost(lex, after) == (boost, left) && ParsePrimary(lex, left, []) == Parsed(node, "", f)
    ensures ParseQuery(lex, "^" + after) == (RaisedBy(node, boost), f)
  {
    hide ParsePrimary, ParseBoost, ParseUnary, ParseQuery;
    CaretRead(lex, after, boost, left, []);
    BoostedIs(node, boost);
    assert ("^" + after)[0] == '^';
    Alone(lex, "^" + after, RaisedBy(node, boost), f);
  }

  /** Without digits and dots before a colon nothing of what follows is taken for the boost. */
  lemma PlainBoostParsed(lex: Lexicon, w: Written)
    requires ReadsNumbers(lex) && Canonical(lex, w)
    requires AtPrimary(w) != "" && var c := AtPrimary(w)[0]; !IsDigit(c) && c != '.' && c != ':'
    ensures ParseQuery(lex, "^" + AtPrimary(w)) == (RaisedBy(NodeOf(w), 2), SettingsOf(w))
  {
    var shown := AtPrimary(w);
    PrimaryRead(lex, w, "", []);
    assert shown + "" == shown && [] + SettingsOf(w) == SettingsOf(w);
    NoBoostRead(lex, shown);
    hide *;
    CaretAlone(lex, shown, 2, shown, NodeOf(w), SettingsOf(w));
  }

  /** A number alone after the sign raises nothing: it is dropped. */
  lemma BoostOfNothing(lex: Lexicon, number: string)
    requires BoostText(number)
    ensures ParseQuery(lex, "^" + number) == (Empty, [])
  {
    assert number + "" == number;
    BoostTextRead(number, "");
    assert ParseBoost(lex, number) == (2, "");
    assert ParsePrimary(lex, "", []) == Parsed(Empty, "", []);
    hide *;
    CaretAlone(lex, number, 2, "", Empty, []);
    RaisedNothing();
  }

  lemma RaisedNothing()
    ensures RaisedBy(Empty, 2) == Empty
  {
  }
}
