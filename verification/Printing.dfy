/**
  Writing queries and parsing them: what is written as words, fields, quoted
  texts, regexes, proximity terms, boosts and their combinations is read back as
  the tree and the settings it stands for.
*/
module Printing {
  import opened Prelude
  import opened Text
  import opened QueryTree
  import opened Parser

  // -------------------------------------------------------------------- numbers

  function Digit(d: nat): (c: char)
    requires d < 10
    ensures IsDigit(c) && DigitValue(c) == d
  {
    ('0' as int + d) as char
  }

  function ShowNat(n: nat): (s: string)
    ensures s != "" && forall i :: 0 <= i < |s| ==> IsDigit(s[i])
  {
    if n < 10 then [Digit(n)] else ShowNat(n / 10) + [Digit(n % 10)]
  }

  lemma {:induction false} DigitsPrefix(s: string, t: string, n: nat)
    requires n <= |s|
    ensures Digits(s + t, n) == Digits(s, n)
  {
    if n > 0 {
      DigitsPrefix(s, t, n - 1);
    }
  }

  lemma {:induction false} DigitsOfShown(n: nat)
    ensures Digits(ShowNat(n), |ShowNat(n)|) == n
  {
    if n < 10 {
      assert ShowNat(n) == [Digit(n)];
      assert Digits(ShowNat(n), 1) == Digits(ShowNat(n), 0) * 10 + DigitValue(Digit(n));
    } else {
      var init, last := ShowNat(n / 10), [Digit(n % 10)];
      DigitsOfShown(n / 10);
      DigitsPrefix(init, last, |init|);
      assert (init + last)[|init|] == Digit(n % 10);
      hide ShowNat;
      assert ShowNat(n) == init + last by { ShowStep(n); }
    }
  }

  lemma ShowStep(n: nat)
    requires n >= 10
    ensures ShowNat(n) == ShowNat(n / 10) + [Digit(n % 10)]
  {
  }

  lemma ParsesShown(n: nat)
    requires n <= U32_MAX
    ensures ParseU32(ShowNat(n)) == Some(n)
  {
    DigitsOfShown(n);
    hide ShowNat, Digits;
    assert IsDigit(ShowNat(n)[0]);
  }

  // -------------------------------------------------------------- what is written

  /** A query as it is written. */
  datatype Written =
    | Word(text: string)
    | Setting(field: string, value: string)
    | Quoted(text: string)
    | Pattern(pattern: string)
    | Close(terms: seq<string>, distance: Option<nat>)
    | Raised(number: Option<nat>, quoted: bool, text: string)
    | All(parts: seq<Written>)
    | Any(parts: seq<Written>)
    | Negated(inner: Written)

  /** The tree it stands for. */
  function NodeOf(w: Written): QueryNode {
    match w
    case Word(t) => Literal(t)
    case Setting(_, _) => Empty
    case Quoted(t) => Phrase(t)
    case Pattern(p) => Regex(p)
    case Close(terms, distance) => Near(terms, if distance.Some? then distance.value else 10)
    case Raised(number, _, t) => BoostedLiteral(t, if number.Some? then number.value else 2)
    case All(parts) => And(NodesOf(parts))
    case Any(parts) => Or(NodesOf(parts))
    case Negated(inner) => Not(NodeOf(inner))
  }

  function NodesOf(parts: seq<Written>): (r: seq<QueryNode>)
    ensures |r| == |parts| && forall i :: 0 <= i < |parts| ==> r[i] == NodeOf(parts[i])
  {
    if parts == [] then [] else [NodeOf(parts[0])] + NodesOf(parts[1..])
  }

  /** The settings in it, in order, with the names of their fields in lower case. */
  function SettingsOf(w: Written): Settings {
    match w
    case Setting(field, value) => [(ToLower(field), value)]
    case All(parts) => SettingsOfAll(parts)
    case Any(parts) => SettingsOfAll(parts)
    case Negated(inner) => SettingsOf(inner)
    case _ => []
  }

  function SettingsOfAll(parts: seq<Written>): Settings {
    if parts == [] then [] else SettingsOf(parts[0]) + SettingsOfAll(parts[1..])
  }

  /** The lexicon reads back the numbers written here. */
  ghost predicate ReadsNumbers(lex: Lexicon) {
    Sane(lex) && forall b: nat :: lex.number(ShowNat(b)) == Some(b)
  }

  predicate PlainWord(lex: Lexicon, t: string) {
    t != "" && forall i :: 0 <= i < |t| ==> WordChar(lex, t[i])
  }

  /** A literal that starts with a symbol of no other meaning. */
  predicate SymbolWord(lex: Lexicon, t: string) {
    && t != "" && (forall i :: 0 <= i < |t| ==> !EndsSymbol(t[i]))
    && !WordChar(lex, t[0]) && t[0] != ':' && t[0] != '-' && t[0] != '^' && t[0] != '"'
  }

  predicate KnownSetting(name: string) {
    name in {"path", "file", "name", "ext", "lang", "size", "line", "mtime", "sort", "top"}
  }

  /** What a field holds. */
  predicate FieldValue(v: string) {
    forall i :: 0 <= i < |v| ==> !IsWhitespace(v[i]) && v[i] != '|' && v[i] != ')'
  }

  /** A literal with a colon after what is no known field; the field may be empty. */
  ghost predicate ColonWord(lex: Lexicon, field: string, value: string) {
    && (forall i :: 0 <= i < |field| ==> WordChar(lex, field[i])) && FieldValue(value)
    && !KnownSetting(ToLower(field)) && ToLower(field) != "near" && !("re:/" <= field + (":" + value))
  }

  ghost predicate FieldWord(lex: Lexicon, t: string) {
    exists field, value :: ColonWord(lex, field, value) && t == field + (":" + value)
  }

  ghost predicate AnyWord(lex: Lexicon, t: string) {
    PlainWord(lex, t) || SymbolWord(lex, t) || FieldWord(lex, t)
  }

  predicate NearTerm(t: string) {
    t != "" && forall i :: 0 <= i < |t| ==> !EndsValue(t[i]) && t[i] != ','
  }

  /** A text that is read as no number. */
  predicate NoNumber(t: string) {
    exists i :: 0 <= i < |t| && !IsDigit(t[i]) && (i > 0 || t[i] != '+')
  }

  predicate IsLeaf(w: Written) {
    w.Word? || w.Setting? || w.Quoted? || w.Pattern? || w.Close?
  }

  /** What can be written and is read as meant. */
  ghost predicate Canonical(lex: Lexicon, w: Written) {
    match w
    case Word(t) => AnyWord(lex, t)
    case Setting(field, value) => PlainWord(lex, field) && KnownSetting(ToLower(field)) && FieldValue(value)
    case Quoted(t) => '"' !in t
    case Pattern(p) => '/' !in p
    case Close(terms, distance) =>
      && |terms| >= 2 && (forall k :: 0 <= k < |terms| ==> NearTerm(terms[k]))
      && if distance.Some? then distance.value <= U32_MAX else NoNumber(terms[|terms| - 1])
    case Raised(number, quoted, t) =>
      && (if quoted then '"' !in t else AnyWord(lex, t))
      && (!quoted && number.None? ==> !IsDigit(t[0]) && t[0] != '.' && t[0] != ':')
    case All(parts) => |parts| >= 2 && forall k :: 0 <= k < |parts| ==> Canonical(lex, parts[k])
    case Any(parts) => |parts| >= 2 && forall k :: 0 <= k < |parts| ==> Canonical(lex, parts[k])
    case Negated(inner) => Canonical(lex, inner)
  }

  function Commas(terms: seq<string>): string {
    if terms == [] then "" else terms[0] + "," + Commas(terms[1..])
  }

  function Paren(s: string): string {
    "(" + s + ")"
  }

  function QuotedText(t: string): string {
    "\"" + (t + "\"")
  }

  function NearValue(terms: seq<string>, distance: Option<nat>): string {
    if distance.Some? then Commas(terms) + ShowNat(distance.value)
    else if terms == [] then ""
    else Commas(terms[..|terms| - 1]) + terms[|terms| - 1]
  }

  function AtPrimary(w: Written): string
    decreases w, 1
  {
    if IsLeaf(w) then Show(w) else Paren(Show(w))
  }

  function AtUnary(w: Written): string
    decreases w, 1
  {
    if w.All? || w.Any? then Paren(Show(w)) else Show(w)
  }

  function AtAnd(w: Written): string
    decreases w, 1
  {
    if w.Any? then Paren(Show(w)) else Show(w)
  }

  function Show(w: Written): string
    decreases w, 0
  {
    match w
    case Word(t) => t
    case Setting(field, value) => field + (":" + value)
    case Quoted(t) => QuotedText(t)
    case Pattern(p) => "re:/" + (p + "/")
    case Close(terms, distance) => "near:" + NearValue(terms, distance)
    case Raised(number, quoted, t) =>
      "^" + ((if number.Some? then ShowNat(number.value) + ":" else "") + if quoted then QuotedText(t) else t)
    case All(parts) => ShowAnd(parts)
    case Any(parts) => ShowOr(parts)
    case Negated(inner) => "-" + AtPrimary(inner)
  }

  function ShowAnd(parts: seq<Written>): string
    decreases parts
  {
    if parts == [] then ""
    else if |parts| == 1 then AtUnary(parts[0])
    else AtUnary(parts[0]) + (" " + ShowAnd(parts[1..]))
  }

  function ShowOr(parts: seq<Written>): string
    decreases parts
  {
    if parts == [] then ""
    else if |parts| == 1 then AtAnd(parts[0])
    else AtAnd(parts[0]) + (" | " + ShowOr(parts[1..]))
  }

  // -------------------------------------------------------------- reading a text

  /** What may follow a part at the level of a single term. */
  predicate EndsUnary(rest: string) {
    rest == "" || rest[0] == ')' || rest[0] == ' '
  }

  predicate EndsAnd(rest: string) {
    rest == "" || rest[0] == ')' || " |" <= rest
  }

  predicate EndsOr(rest: string) {
    rest == "" || rest[0] == ')'
  }

  lemma Appended(a: string, b: string)
    ensures (a + b)[|a|..] == b && (a + b)[..|a|] == a
  {
  }

  lemma {:induction false} WordRead(lex: Lexicon, t: string, rest: string)
    requires forall i :: 0 <= i < |t| ==> WordChar(lex, t[i])
    requires rest == "" || !WordChar(lex, rest[0])
    ensures WordLength(lex, t + rest) == |t|
    decreases |t|
  {
    if t == "" {
      assert t + rest == rest;
    } else {
      assert (t + rest)[1..] == t[1..] + rest;
      WordRead(lex, t[1..], rest);
    }
  }

  lemma {:induction false} SymbolRead(t: string, rest: string)
    requires forall i :: 0 <= i < |t| ==> !EndsSymbol(t[i])
    requires rest == "" || EndsSymbol(rest[0])
    ensures SymbolLength(t + rest) == |t|
    decreases |t|
  {
    if t == "" {
      assert t + rest == rest;
    } else {
      assert (t + rest)[1..] == t[1..] + rest;
      SymbolRead(t[1..], rest);
    }
  }

  lemma {:induction false} ValueRead(t: string, rest: string)
    requires forall i :: 0 <= i < |t| ==> !EndsValue(t[i])
    requires rest == "" || EndsValue(rest[0])
    ensures ValueLength(t + rest) == |t|
    decreases |t|
  {
    if t == "" {
      assert t + rest == rest;
    } else {
      assert (t + rest)[1..] == t[1..] + rest;
      ValueRead(t[1..], rest);
    }
  }

  lemma {:induction false} UpToRead(t: string, c: char, rest: string)
    requires c !in t && (rest == "" || rest[0] == c)
    ensures LengthUpTo(t + rest, c) == |t|
    decreases |t|
  {
    if t == "" {
      assert t + rest == rest;
    } else {
      assert (t + rest)[1..] == t[1..] + rest;
      UpToRead(t[1..], c, rest);
    }
  }

  lemma {:induction false} BoostRead(t: string, rest: string)
    requires (forall i :: 0 <= i < |t| ==> IsDigit(t[i])) && rest != "" && rest[0] == ':'
    ensures BoostLength(t + rest) == |t|
    decreases |t|
  {
    if t == "" {
      assert t + rest == rest;
    } else {
      assert (t + rest)[1..] == t[1..] + rest;
      BoostRead(t[1..], rest);
    }
  }

  // --------------------------------------------------------------------- leaves

  lemma PlainRead(lex: Lexicon, t: string, rest: string, f: Settings)
    requires Sane(lex) && PlainWord(lex, t) && EndsUnary(rest)
    ensures ParseTerm(lex, t + rest, f) == Parsed(Literal(t), rest, f)
  {
    WordRead(lex, t, rest);
    Appended(t, rest);
  }

  lemma SymbolTermRead(lex: Lexicon, t: string, rest: string, f: Settings)
    requires SymbolWord(lex, t) && EndsUnary(rest)
    ensures ParseTerm(lex, t + rest, f) == Parsed(Literal(t), rest, f)
  {
    SymbolRead(t, rest);
    Appended(t, rest);
    assert (t + rest)[0] == t[0];
  }

  lemma PhraseRead(t: string, rest: string, f: Settings)
    requires '"' !in t
    ensures ParsePhrase(QuotedText(t) + rest, f) == Parsed(Phrase(t), rest, f)
  {
    var all := QuotedText(t) + rest;
    assert all[1..] == t + ("\"" + rest);
    UpToRead(t, '"', "\"" + rest);
    Appended(t, "\"" + rest);
    assert ("\"" + rest)[1..] == rest;
  }

  lemma RegexRead(p: string, rest: string, f: Settings)
    requires '/' !in p
    ensures StartsRegex("re:/" + (p + "/") + rest)
    ensures ParseRegex("re:/" + (p + "/") + rest, f) == Parsed(Regex(p), rest, f)
  {
    var all := "re:/" + (p + "/") + rest;
    assert all[..4] == "re:/";
    assert all[4..] == p + ("/" + rest);
    UpToRead(p, '/', "/" + rest);
    Appended(p, "/" + rest);
    assert ("/" + rest)[1..] == rest;
  }

  lemma {:induction false} NoSpaceTrim(t: string)
    requires t != "" && forall i :: 0 <= i < |t| ==> !IsWhitespace(t[i])
    ensures Trim(t) == t
  {
  }

  /** Terms before commas, and a last part without one. */
  lemma {:induction false} CommasSplit(terms: seq<string>, last: string)
    requires (forall k :: 0 <= k < |terms| ==> ',' !in terms[k]) && ',' !in last
    ensures SplitCommas(Commas(terms) + last) == terms + [last]
    decreases |terms|
  {
    var all := Commas(terms) + last;
    if terms == [] {
      assert all == last + "";
      UpToRead(last, ',', "");
      assert last + "" == last;
    } else {
      var rest := Commas(terms[1..]) + last;
      assert all == terms[0] + ("," + rest);
      UpToRead(terms[0], ',', "," + rest);
      Appended(terms[0], "," + rest);
      assert ("," + rest)[1..] == rest;
      assert all[|terms[0]| + 1..] == rest;
      CommasSplit(terms[1..], last);
      assert [terms[0]] + (terms[1..] + [last]) == terms + [last];
    }
  }

  lemma {:induction false} TermsStay(terms: seq<string>)
    requires forall k :: 0 <= k < |terms| ==> NearTerm(terms[k])
    ensures TermsOf(terms) == terms
    decreases |terms|
  {
    if terms != [] {
      NoSpaceTrim(terms[0]);
      TermsStay(terms[1..]);
      assert terms == [terms[0]] + terms[1..];
    }
  }

  lemma {:induction false} CommasPlain(terms: seq<string>)
    requires forall k :: 0 <= k < |terms| ==> NearTerm(terms[k])
    ensures forall i :: 0 <= i < |Commas(terms)| ==> !EndsValue(Commas(terms)[i])
    decreases |terms|
  {
    if terms != [] {
      CommasPlain(terms[1..]);
    }
  }

  lemma NearTermsRead(terms: seq<string>, last: string)
    requires (forall k :: 0 <= k < |terms| ==> NearTerm(terms[k])) && NearTerm(last)
    ensures SplitCommas(Commas(terms) + last) == terms + [last]
    ensures Trim(last) == last && TermsOf(terms) == terms
  {
    assert forall k :: 0 <= k < |terms| ==> ',' !in terms[k];
    CommasSplit(terms, last);
    NoSpaceTrim(last);
    TermsStay(terms);
    hide SplitCommas, TermsOf, Trim, Commas;
  }

  lemma NumberIsTerm(n: nat)
    ensures NearTerm(ShowNat(n))
  {
    hide ShowNat;
    DigitsAreTerm(ShowNat(n));
  }

  lemma DigitsAreTerm(t: string)
    requires t != "" && forall i :: 0 <= i < |t| ==> IsDigit(t[i])
    ensures NearTerm(t)
  {
    forall i | 0 <= i < |t|
      ensures !EndsValue(t[i]) && t[i] != ','
    {
      DigitInTerm(t[i]);
    }
    hide EndsValue;
  }

  lemma DigitInTerm(c: char)
    ensures IsDigit(c) ==> !EndsValue(c) && c != ','
  {
  }

  lemma NoNumberRead(t: string)
    requires NoNumber(t)
    ensures ParseU32(t) == None
  {
    var i :| 0 <= i < |t| && !IsDigit(t[i]) && (i > 0 || t[i] != '+');
    hide Digits;
    if t[0] == '+' {
      assert t[1..][i - 1] == t[i];
    }
  }

  lemma NearValueRead(terms: seq<string>, distance: Option<nat>)
    requires |terms| >= 2 && (forall k :: 0 <= k < |terms| ==> NearTerm(terms[k]))
    requires if distance.Some? then distance.value <= U32_MAX else NoNumber(terms[|terms| - 1])
    ensures ParseNear(NearValue(terms, distance)) == Near(terms, if distance.Some? then distance.value else 10)
  {
    hide SplitCommas, TermsOf, Trim, ParseU32, ShowNat, Commas, NearTerm, NoNumber;
    if distance.Some? {
      var last := ShowNat(distance.value);
      NumberIsTerm(distance.value);
      ParsesShown(distance.value);
      NearTermsRead(terms, last);
      assert (terms + [last])[..|terms|] == terms;
    } else {
      var init, last := terms[..|terms| - 1], terms[|terms| - 1];
      assert terms == init + [last];
      NoNumberRead(last);
      NearTermsRead(init, last);
      NearTermsStay(terms);
    }
  }

  lemma NearTermsStay(terms: seq<string>)
    requires forall k :: 0 <= k < |terms| ==> NearTerm(terms[k])
    ensures TermsOf(terms) == terms
  {
    TermsStay(terms);
  }

  /** A field name is read up to its colon. */
  lemma FieldRead(lex: Lexicon, field: string, after: string, f: Settings)
    requires forall i :: 0 <= i < |field| ==> WordChar(lex, field[i])
    ensures ParseTerm(lex, field + (":" + after), f) == ParseField(field, after, f)
  {
    WordRead(lex, field, ":" + after);
    Appended(field, ":" + after);
    assert (field + (":" + after))[|field| + 1..] == after;
    hide WordLength, ParseField;
  }

  lemma FieldValueRead(value: string, rest: string)
    requires FieldValue(value) && EndsUnary(rest)
    ensures ValueLength(value + rest) == |value|
            && (value + rest)[..|value|] == value && (value + rest)[|value|..] == rest
  {
    assert forall i :: 0 <= i < |value| ==> !EndsValue(value[i]);
    ValueRead(value, rest);
    Appended(value, rest);
    hide ValueLength;
  }

  lemma NearFieldRead(value: string, rest: string, f: Settings)
    requires FieldValue(value) && EndsUnary(rest)
    ensures ParseField("near", value + rest, f) == Parsed(ParseNear(value), rest, f)
  {
    FieldValueRead(value, rest);
    assert ToLower("near") == "near";
    hide ValueLength, ParseNear;
  }

  lemma NearRead(lex: Lexicon, terms: seq<string>, distance: Option<nat>, rest: string, f: Settings)
    requires Sane(lex) && EndsUnary(rest) && Canonical(lex, Close(terms, distance))
    ensures ParseTerm(lex, "near:" + NearValue(terms, distance) + rest, f) ==
            Parsed(NodeOf(Close(terms, distance)), rest, f)
  {
    var value := NearValue(terms, distance);
    assert NodeOf(Close(terms, distance)) == Near(terms, if distance.Some? then distance.value else 10);
    hide *;
    CloseParts(lex, terms, distance);
    NearValuePlain(terms, distance);
    NearIsWord(lex);
    NearValueRead(terms, distance);
    FieldRead(lex, "near", value + rest, f);
    NearFieldRead(value, rest, f);
    NearText(value, rest);
  }

  lemma CloseParts(lex: Lexicon, terms: seq<string>, distance: Option<nat>)
    requires Canonical(lex, Close(terms, distance))
    ensures |terms| >= 2 && (forall k :: 0 <= k < |terms| ==> NearTerm(terms[k]))
    ensures if distance.Some? then distance.value <= U32_MAX else NoNumber(terms[|terms| - 1])
  {
    hide NearTerm, NoNumber;
  }

  lemma NearIsWord(lex: Lexicon)
    requires Sane(lex)
    ensures forall i :: 0 <= i < |"near"| ==> WordChar(lex, "near"[i])
  {
  }

  lemma NearText(value: string, rest: string)
    ensures "near:" + value + rest == "near" + (":" + (value + rest))
  {
    assert "near:" == "near" + ":";
  }

  lemma NearValuePlain(terms: seq<string>, distance: Option<nat>)
    requires forall k :: 0 <= k < |terms| ==> NearTerm(terms[k])
    ensures FieldValue(NearValue(terms, distance))
  {
    assert forall t, i :: NearTerm(t) && 0 <= i < |t| ==> !EndsValue(t[i]);
    if distance.Some? {
      CommasPlain(terms);
      NumberIsTerm(distance.value);
    } else if terms != [] {
      CommasPlain(terms[..|terms| - 1]);
    }
    hide Commas, ShowNat, NearTerm;
  }

  // --------------------------------------------------------------------- fields

  /** What the name of a field decides. */
  lemma FieldCases(field: string, value: string, rest: string, f: Settings)
    requires FieldValue(value) && EndsUnary(rest)
    ensures var p, name := ParseField(field, value + rest, f), ToLower(field);
            && (KnownSetting(name) ==> p == Parsed(Empty, rest, f + [(name, value)]))
            && (!KnownSetting(name) && name != "near" ==> p == Parsed(Literal(field + ":" + value), rest, f))
  {
    FieldValueRead(value, rest);
    KnownIs(ToLower(field));
    hide ValueLength, ParseNear, ToLower, KnownSetting, FieldValue, EndsUnary;
  }

  lemma KnownIs(name: string)
    ensures KnownSetting(name) <==> name in SETTING_FIELDS
  {
  }

  lemma FieldText(field: string, value: string, rest: string)
    ensures field + (":" + value) + rest == field + (":" + (value + rest))
    ensures field + ":" + value == field + (":" + value)
  {
  }

  /** A setting is taken down under its field in lower case, and leaves nothing in the tree. */
  lemma SettingRead(lex: Lexicon, field: string, value: string, rest: string, f: Settings)
    requires PlainWord(lex, field) && KnownSetting(ToLower(field)) && FieldValue(value) && EndsUnary(rest)
    ensures ParseTerm(lex, field + (":" + value) + rest, f) == Parsed(Empty, rest, f + [(ToLower(field), value)])
  {
    assert forall i :: 0 <= i < |field| ==> WordChar(lex, field[i]);
    hide *;
    FieldRead(lex, field, value + rest, f);
    FieldCases(field, value, rest, f);
    FieldText(field, value, rest);
  }

  lemma ColonParts(lex: Lexicon, field: string, value: string)
    requires ColonWord(lex, field, value)
    ensures forall i :: 0 <= i < |field| ==> WordChar(lex, field[i])
    ensures FieldValue(value) && !KnownSetting(ToLower(field)) && ToLower(field) != "near"
    ensures !("re:/" <= field + (":" + value))
  {
    hide FieldValue, KnownSetting, ToLower, WordChar;
  }

  lemma ColonRead(lex: Lexicon, field: string, value: string, rest: string, f: Settings)
    requires ColonWord(lex, field, value) && EndsUnary(rest)
    ensures ParseTerm(lex, field + (":" + value) + rest, f) == Parsed(Literal(field + (":" + value)), rest, f)
  {
    hide *;
    ColonParts(lex, field, value);
    FieldRead(lex, field, value + rest, f);
    FieldCases(field, value, rest, f);
    FieldText(field, value, rest);
  }

  /** Neither starts another form. */
  lemma FieldStarts(lex: Lexicon, field: string, value: string, rest: string)
    requires Sane(lex) && forall i :: 0 <= i < |field| ==> WordChar(lex, field[i])
    ensures var text := field + (":" + value);
            && text != "" && !IsWhitespace(text[0]) && text[0] != '(' && text[0] != '"' && text[0] != '-'
            && text[0] != '^' && text[0] != ')' && text[0] != '|'
    ensures StartsRegex(field + (":" + value) + rest) && EndsUnary(rest) ==>
            field == "re" && "re:/" <= field + (":" + value)
  {
    var text := field + (":" + value);
    assert field != "" ==> text[0] == field[0] && WordChar(lex, field[0]);
    if StartsRegex(text + rest) && EndsUnary(rest) {
      RegexField(field, value, rest, lex);
    }
  }

  lemma RegexField(field: string, value: string, rest: string, lex: Lexicon)
    requires Sane(lex) && forall i :: 0 <= i < |field| ==> WordChar(lex, field[i])
    requires StartsRegex(field + (":" + value) + rest) && EndsUnary(rest)
    ensures field == "re" && "re:/" <= field + (":" + value)
  {
    var text := field + (":" + value);
    var all := text + rest;
    RegexLetters(all);
    assert text[|field|] == ':' && all[|field|] == ':';
    assert forall i :: 0 <= i < |field| ==> all[i] == field[i] && field[i] != ':';
    assert |field| == 2;
    assert field == "re";
    AfterText(text, rest);
    assert text[..4] == all[..4] == "re:/";
  }

  lemma AfterText(text: string, rest: string)
    ensures rest != "" ==> (text + rest)[|text|] == rest[0]
  {
  }

  lemma RegexLetters(s: string)
    ensures StartsRegex(s) ==> |s| >= 4 && s[0] == 'r' && s[1] == 'e' && s[2] == ':' && s[3] == '/' && s[..4] == "re:/"
  {
    if StartsRegex(s) {
      assert s[..4] == "re:/";
      assert s[0] == s[..4][0] && s[1] == s[..4][1] && s[2] == s[..4][2] && s[3] == s[..4][3];
    }
  }

  /** Any word is read by the term level, and starts no other form. */
  lemma AnyWordRead(lex: Lexicon, t: string, rest: string, f: Settings)
    requires Sane(lex) && AnyWord(lex, t) && EndsUnary(rest)
    ensures ParseTerm(lex, t + rest, f) == Parsed(Literal(t), rest, f)
    ensures t != "" && !IsWhitespace(t[0]) && t[0] != '(' && t[0] != '"' && t[0] != '-' && t[0] != '^' && t[0] != ')'
    ensures t[0] != '|' && !StartsRegex(t + rest)
  {
    hide ParseTerm, WordLength, SymbolLength;
    if PlainWord(lex, t) {
      PlainRead(lex, t, rest, f);
      PlainStarts(lex, t, rest);
    } else if SymbolWord(lex, t) {
      SymbolTermRead(lex, t, rest, f);
      SymbolStarts(lex, t, rest);
    } else {
      var field, value :| ColonWord(lex, field, value) && t == field + (":" + value);
      ColonParts(lex, field, value);
      hide ColonWord;
      ColonRead(lex, field, value, rest, f);
      FieldStarts(lex, field, value, rest);
    }
  }

  lemma SymbolStarts(lex: Lexicon, t: string, rest: string)
    requires Sane(lex) && SymbolWord(lex, t)
    ensures !IsWhitespace(t[0]) && t[0] != '(' && t[0] != '"' && t[0] != '-' && t[0] != '^' && t[0] != ')'
    ensures t[0] != '|' && !StartsRegex(t + rest)
  {
    RegexLetters(t + rest);
    assert (t + rest)[0] == t[0];
    assert WordChar(lex, 'r');
  }

  /** What starts no other form is read as a term. */
  lemma TermAtPrimary(lex: Lexicon, text: string, f: Settings)
    requires text != "" && !IsWhitespace(text[0]) && text[0] != '(' && text[0] != '"' && !StartsRegex(text)
    ensures ParsePrimary(lex, text, f) == ParseTerm(lex, text, f)
  {
    hide ParseTerm, ParsePhrase, ParseRegex;
  }

  /** A leaf is read by the primary level. */
  lemma LeafRead(lex: Lexicon, w: Written, rest: string, f: Settings)
    requires Sane(lex) && IsLeaf(w) && Canonical(lex, w) && EndsUnary(rest)
    ensures ParsePrimary(lex, Show(w) + rest, f) == Parsed(NodeOf(w), rest, f + SettingsOf(w))
  {
    var all := Show(w) + rest;
    assert f + [] == f;
    hide ParseTerm, ParsePhrase, ParseRegex, Commas, ShowNat, WordLength, AnyWord, PlainWord, FieldValue, NearValue,
        KnownSetting;
    match w {
      case Word(t) =>
        AnyWordRead(lex, t, rest, f);
        assert all[0] == t[0];
        TermAtPrimary(lex, all, f);
      case Setting(field, value) =>
        SettingRead(lex, field, value, rest, f);
        SettingStarts(lex, field, value, rest);
        TermAtPrimary(lex, all, f);
      case Quoted(t) =>
        assert all[0] == '"';
        PhraseRead(t, rest, f);
      case Pattern(p) =>
        assert all[0] == 'r';
        RegexRead(p, rest, f);
      case Close(terms, distance) =>
        assert all[0] == 'n';
        NearRead(lex, terms, distance, rest, f);
    }
  }

  lemma SettingStarts(lex: Lexicon, field: string, value: string, rest: string)
    requires Sane(lex) && PlainWord(lex, field) && KnownSetting(ToLower(field)) && EndsUnary(rest)
    ensures var text := field + (":" + value);
            && text != "" && !IsWhitespace(text[0]) && text[0] != '(' && text[0] != '"' && text[0] != '-'
            && text[0] != '^' && text[0] != ')' && text[0] != '|' && (text + rest)[0] == text[0]
            && !StartsRegex(text + rest)
  {
    assert ToLower("re") == "re";
    FieldStarts(lex, field, value, rest);
  }

  /** A plain word starts none of the other forms. */
  lemma PlainStarts(lex: Lexicon, t: string, rest: string)
    requires Sane(lex) && PlainWord(lex, t) && EndsUnary(rest)
    ensures !IsWhitespace(t[0]) && t[0] != '(' && t[0] != '"' && t[0] != '-' && t[0] != '^' && t[0] != ')'
    ensures t[0] != '|'
    ensures !StartsRegex(t + rest)
  {
    assert WordChar(lex, t[0]);
    var all := t + rest;
    RegexChars(all);
    assert |t| > 2 ==> all[2] == t[2] && WordChar(lex, t[2]);
    assert |t| == 2 && rest != "" ==> all[2] == rest[0];
    assert |t| == 1 && rest != "" ==> all[1] == rest[0];
  }

  lemma RegexChars(s: string)
    ensures StartsRegex(s) ==> |s| >= 4 && s[1] == 'e' && s[2] == ':'
  {
    assert "re:/"[1] == 'e' && "re:/"[2] == ':';
  }

  // --------------------------------------------------------------------- levels

  /** Every part starts with something the And level goes on with, and no sign unless it is meant. */
  lemma {:induction false} PartStarts(lex: Lexicon, w: Written)
    requires Sane(lex) && Canonical(lex, w)
    ensures GoesOn(AtPrimary(w)) && AtPrimary(w)[0] != '-' && AtPrimary(w)[0] != '^'
    ensures GoesOn(AtUnary(w)) && GoesOn(AtAnd(w)) && GoesOn(Show(w))
    decreases w
  {
    hide AnyWord, PlainWord, FieldValue, NearValue, KnownSetting;
    match w {
      case Word(t) => AnyWordRead(lex, t, "", []);
      case Setting(field, value) => SettingStarts(lex, field, value, "");
      case All(parts) =>
        PartStarts(lex, parts[0]);
        assert ShowAnd(parts)[0] == AtUnary(parts[0])[0];
      case Any(parts) =>
        PartStarts(lex, parts[0]);
        assert ShowOr(parts)[0] == AtAnd(parts[0])[0];
      case _ =>
    }
  }

  lemma GoesOnWith(a: string, b: string)
    requires GoesOn(a)
    ensures GoesOn(a + b) && (a + b)[0] == a[0]
  {
  }

  /** What is written in parentheses is read by the primary level. */
  lemma {:induction false} ParenRead(lex: Lexicon, w: Written, rest: string, f: Settings)
    requires ReadsNumbers(lex) && Canonical(lex, w)
    ensures ParsePrimary(lex, Paren(Show(w)) + rest, f) == Parsed(NodeOf(w), rest, f + SettingsOf(w))
    decreases w, 9
  {
    hide ReadsNumbers, Canonical, Show, ParseOr, NodeOf, SettingsOf;
    var all := Paren(Show(w)) + rest;
    assert all[1..] == Show(w) + (")" + rest);
    OrRead(lex, w, ")" + rest, f);
    assert (")" + rest)[1..] == rest;
  }

  lemma {:induction false} PrimaryRead(lex: Lexicon, w: Written, rest: string, f: Settings)
    requires ReadsNumbers(lex) && Canonical(lex, w) && EndsUnary(rest)
    ensures ParsePrimary(lex, AtPrimary(w) + rest, f) == Parsed(NodeOf(w), rest, f + SettingsOf(w))
    decreases w, if IsLeaf(w) then 1 else 10
  {
    if IsLeaf(w) {
      LeafRead(lex, w, rest, f);
    } else {
      ParenRead(lex, w, rest, f);
    }
    hide ParsePrimary, Show, Canonical, NodeOf, SettingsOf;
  }

  lemma BoostNumberRead(lex: Lexicon, b: nat, after: string)
    requires ReadsNumbers(lex)
    ensures ParseBoost(lex, ShowNat(b) + (":" + after)) == (b, after)
  {
    var number := ShowNat(b);
    BoostRead(number, ":" + after);
    Appended(number, ":" + after);
    assert (number + (":" + after))[|number| + 1..] == after;
    hide ShowNat, BoostLength;
  }

  /** Without a number before a colon the boost is the default, and nothing is read. */
  lemma NoBoostRead(lex: Lexicon, after: string)
    requires after != "" && !IsDigit(after[0]) && after[0] != '.' && after[0] != ':'
    ensures ParseBoost(lex, after) == (2, after)
  {
    assert BoostLength(after) == 0;
  }

  lemma QuotedRead(lex: Lexicon, t: string, rest: string, f: Settings)
    requires '"' !in t
    ensures ParsePrimary(lex, QuotedText(t) + rest, f) == Parsed(Phrase(t), rest, f)
  {
    PhraseRead(t, rest, f);
    assert (QuotedText(t) + rest)[0] == '"';
    hide ParsePhrase, ParseTerm, ParseOr, ParseRegex;
  }

  lemma CaretRead(lex: Lexicon, after: string, boost: nat, left: string, f: Settings)
    requires ParseBoost(lex, after) == (boost, left)
    ensures ParseUnary(lex, "^" + after, f) ==
            var inner := ParsePrimary(lex, left, f);
            inner.(node := Boosted(inner.node, boost))
  {
    assert ("^" + after)[1..] == after;
    hide ParsePrimary, ParseBoost;
  }

  /** The text after a boost, with or without quotes. */
  lemma BoostedText(lex: Lexicon, quoted: bool, t: string, rest: string, f: Settings)
    requires Sane(lex) && EndsUnary(rest) && if quoted then '"' !in t else AnyWord(lex, t)
    ensures var shown := if quoted then QuotedText(t) else t;
            ParsePrimary(lex, shown + rest, f) == Parsed(if quoted then Phrase(t) else Literal(t), rest, f)
  {
    hide AnyWord, ParsePrimary, ParseTerm, QuotedText;
    if quoted {
      QuotedRead(lex, t, rest, f);
    } else {
      AnyWordRead(lex, t, rest, f);
      assert (t + rest)[0] == t[0];
      TermAtPrimary(lex, t + rest, f);
    }
  }

  lemma BoostedRead(lex: Lexicon, number: Option<nat>, quoted: bool, t: string, rest: string, f: Settings)
    requires ReadsNumbers(lex) && Canonical(lex, Raised(number, quoted, t)) && EndsUnary(rest)
    ensures ParseUnary(lex, Show(Raised(number, quoted, t)) + rest, f) ==
            Parsed(NodeOf(Raised(number, quoted, t)), rest, f + SettingsOf(Raised(number, quoted, t)))
  {
    var w := Raised(number, quoted, t);
    var shown := if quoted then QuotedText(t) else t;
    var boost := if number.Some? then number.value else 2;
    assert NodeOf(w) == BoostedLiteral(t, boost) && SettingsOf(w) == [] && f + [] == f;
    assert Boosted(if quoted then Phrase(t) else Literal(t), boost) == BoostedLiteral(t, boost);
    RaisedParts(lex, number, quoted, t);
    ShownRaised(number, quoted, t, rest);
    hide *;
    Sanity(lex);
    BoostedText(lex, quoted, t, rest, f);
    if number.Some? {
      BoostNumberRead(lex, number.value, shown + rest);
      CaretRead(lex, ShowNat(number.value) + (":" + (shown + rest)), boost, shown + rest, f);
    } else {
      FirstOf(quoted, t, rest);
      NoBoostRead(lex, shown + rest);
      CaretRead(lex, shown + rest, boost, shown + rest, f);
    }
  }

  lemma RaisedParts(lex: Lexicon, number: Option<nat>, quoted: bool, t: string)
    requires Sane(lex) && Canonical(lex, Raised(number, quoted, t))
    ensures if quoted then '"' !in t else AnyWord(lex, t) && t != ""
    ensures !quoted && number.None? ==> !IsDigit(t[0]) && t[0] != '.' && t[0] != ':'
  {
    hide AnyWord;
    if !quoted {
      AnyWordRead(lex, t, "", []);
    }
  }

  lemma FirstOf(quoted: bool, t: string, rest: string)
    requires !quoted ==> t != "" && !IsDigit(t[0]) && t[0] != '.' && t[0] != ':'
    ensures var all := (if quoted then QuotedText(t) else t) + rest;
            all != "" && !IsDigit(all[0]) && all[0] != '.' && all[0] != ':'
  {
  }

  lemma ShownRaised(number: Option<nat>, quoted: bool, t: string, rest: string)
    ensures var shown := if quoted then QuotedText(t) else t;
            Show(Raised(number, quoted, t)) + rest ==
            "^" + if number.Some? then ShowNat(number.value) + (":" + (shown + rest)) else shown + rest
  {
    hide QuotedText, ShowNat;
    var shown := if quoted then QuotedText(t) else t;
    assert "" + shown == shown;
  }

  lemma MinusRead(lex: Lexicon, text: string, node: QueryNode, rest: string, f: Settings, g: Settings)
    requires ParsePrimary(lex, text + rest, f) == Parsed(node, rest, g)
    ensures ParseUnary(lex, "-" + text + rest, f) == Parsed(Not(node), rest, g)
  {
    var all := "-" + text + rest;
    assert all[1..] == text + rest && all[0] == '-';
    hide ParsePrimary, ParseBoost;
  }

  lemma {:induction false} UnaryRead(lex: Lexicon, w: Written, rest: string, f: Settings)
    requires ReadsNumbers(lex) && Canonical(lex, w) && EndsUnary(rest)
    ensures ParseUnary(lex, AtUnary(w) + rest, f) == Parsed(NodeOf(w), rest, f + SettingsOf(w))
    decreases w, if w.All? || w.Any? then 11 else 2
  {
    hide ReadsNumbers, ParsePrimary, ShowNat, Commas, AnyWord, FieldValue, NearValue, QuotedText, PlainWord;
    match w {
      case Negated(inner) =>
        PrimaryRead(lex, inner, rest, f);
        MinusRead(lex, AtPrimary(inner), NodeOf(inner), rest, f, f + SettingsOf(inner));
      case Raised(number, quoted, t) => BoostedRead(lex, number, quoted, t, rest, f);
      case _ =>
        assert Sane(lex) by { Sanity(lex); }
        PartStarts(lex, w);
        PrimaryRead(lex, w, rest, f);
        assert AtUnary(w) == AtPrimary(w);
        GoesOnWith(AtPrimary(w), rest);
    }
  }

  lemma Sanity(lex: Lexicon)
    requires ReadsNumbers(lex)
    ensures Sane(lex)
  {
  }

  /** The And level takes up one more part. */
  lemma AndTakes(lex: Lexicon, text: string, node: QueryNode, rest: string, nodes: seq<QueryNode>, f: Settings,
      g: Settings)
    requires GoesOn(text) && ParseUnary(lex, text, f) == Parsed(node, rest, g)
    ensures AndLoop(lex, text, nodes, f) == AndLoop(lex, rest, nodes + [node], g)
  {
  }

  lemma AndStops(lex: Lexicon, rest: string, nodes: seq<QueryNode>, f: Settings)
    requires EndsAnd(rest)
    ensures AndLoop(lex, rest, nodes, f) == Parsed(AndOf(nodes), SkipWhitespace(rest), f)
  {
    if " |" <= rest {
      assert rest[0] == ' ' && rest[1] == '|';
      assert SkipWhitespace(rest) == SkipWhitespace(rest[1..]) == rest[1..];
    }
  }

  lemma AndSkips(lex: Lexicon, rest: string, nodes: seq<QueryNode>, f: Settings)
    requires GoesOn(rest)
    ensures AndLoop(lex, " " + rest, nodes, f) == AndLoop(lex, rest, nodes, f)
  {
    assert (" " + rest)[1..] == rest;
    assert SkipWhitespace(" " + rest) == rest;
    hide ParseUnary;
  }

  lemma {:induction false} PartsRead(lex: Lexicon, parts: seq<Written>, done: seq<QueryNode>, rest: string,
      f: Settings)
    requires ReadsNumbers(lex) && parts != [] && (forall k :: 0 <= k < |parts| ==> Canonical(lex, parts[k]))
    requires EndsAnd(rest)
    ensures AndLoop(lex, ShowAnd(parts) + rest, done, f) ==
            Parsed(AndOf(done + NodesOf(parts)), SkipWhitespace(rest), f + SettingsOfAll(parts))
    decreases parts, 1
  {
    hide *;
    FirstOfParts(parts, f);
    if |parts| == 1 {
      assert parts == [parts[0]];
      LastPart(lex, parts[0], done, rest, f);
    } else {
      RestCanonical(lex, parts);
      FirstPart(lex, parts, done, rest, f);
      PartsRead(lex, parts[1..], done + [NodeOf(parts[0])], rest, f + SettingsOf(parts[0]));
      NodesAppend(done, NodeOf(parts[0]), NodesOf(parts[1..]));
    }
  }

  lemma FirstOfParts(parts: seq<Written>, f: Settings)
    requires parts != []
    ensures NodesOf(parts) == [NodeOf(parts[0])] + NodesOf(parts[1..])
    ensures f + SettingsOfAll(parts) == (f + SettingsOf(parts[0])) + SettingsOfAll(parts[1..])
    ensures |parts| == 1 ==>
            NodesOf(parts) == [NodeOf(parts[0])] && f + SettingsOfAll(parts) == f + SettingsOf(parts[0])
  {
    PartsUnfold(parts);
    hide *;
    Appending(f, SettingsOf(parts[0]), SettingsOfAll(parts[1..]));
    if |parts| == 1 {
      assert parts[1..] == [];
      NoParts();
    }
  }

  lemma PartsUnfold(parts: seq<Written>)
    requires parts != []
    ensures NodesOf(parts) == [NodeOf(parts[0])] + NodesOf(parts[1..])
    ensures SettingsOfAll(parts) == SettingsOf(parts[0]) + SettingsOfAll(parts[1..])
  {
    hide NodeOf, SettingsOf;
  }

  lemma NoParts()
    ensures NodesOf([]) == [] && SettingsOfAll([]) == []
  {
  }

  lemma Appending(f: Settings, a: Settings, b: Settings)
    ensures f + (a + b) == (f + a) + b
    ensures b == [] ==> a + b == a
  {
  }

  lemma NodesAppend(done: seq<QueryNode>, node: QueryNode, more: seq<QueryNode>)
    ensures done + [node] + more == done + ([node] + more)
  {
  }

  lemma RestCanonical(lex: Lexicon, parts: seq<Written>)
    requires |parts| > 1 && forall k :: 0 <= k < |parts| ==> Canonical(lex, parts[k])
    ensures forall k :: 0 <= k < |parts[1..]| ==> Canonical(lex, parts[1..][k])
  {
    hide Canonical;
    assert forall k :: 0 <= k < |parts[1..]| ==> parts[1..][k] == parts[k + 1];
  }

  lemma {:induction false} LastPart(lex: Lexicon, w: Written, done: seq<QueryNode>, rest: string, f: Settings)
    requires ReadsNumbers(lex) && Canonical(lex, w) && EndsAnd(rest)
    ensures AndLoop(lex, ShowAnd([w]) + rest, done, f) ==
            Parsed(AndOf(done + [NodeOf(w)]), SkipWhitespace(rest), f + SettingsOf(w))
    decreases w, 20
  {
    hide *;
    Sanity(lex);
    PartStarts(lex, w);
    OnePart(w);
    GoesOnWith(AtUnary(w), rest);
    EndsBoth(rest);
    UnaryRead(lex, w, rest, f);
    AndTakes(lex, AtUnary(w) + rest, NodeOf(w), rest, done, f, f + SettingsOf(w));
    AndStops(lex, rest, done + [NodeOf(w)], f + SettingsOf(w));
  }

  lemma {:induction false} FirstPart(lex: Lexicon, parts: seq<Written>, done: seq<QueryNode>, rest: string,
      f: Settings)
    requires ReadsNumbers(lex) && |parts| > 1 && Canonical(lex, parts[0]) && Canonical(lex, parts[1])
    ensures AndLoop(lex, ShowAnd(parts) + rest, done, f) ==
            AndLoop(lex, ShowAnd(parts[1..]) + rest, done + [NodeOf(parts[0])], f + SettingsOf(parts[0]))
    decreases parts, 0
  {
    hide *;
    Sanity(lex);
    PartStarts(lex, parts[0]);
    PartStarts(lex, parts[1]);
    var more, g := ShowAnd(parts[1..]) + rest, f + SettingsOf(parts[0]);
    MoreParts(parts, rest);
    GoesOnWith(AtUnary(parts[0]), " " + more);
    SpaceEnds(more);
    UnaryRead(lex, parts[0], " " + more, f);
    AndTakes(lex, AtUnary(parts[0]) + (" " + more), NodeOf(parts[0]), " " + more, done, f, g);
    AndStartsWithPart(parts[1..], rest);
    AndSkips(lex, more, done + [NodeOf(parts[0])], g);
  }

  lemma OnePart(w: Written)
    ensures ShowAnd([w]) == AtUnary(w) && ShowOr([w]) == AtAnd(w)
  {
  }

  lemma EndsBoth(rest: string)
    ensures EndsAnd(rest) ==> EndsUnary(rest)
    ensures EndsOr(rest) ==> EndsAnd(rest)
  {
  }

  lemma SpaceEnds(more: string)
    ensures EndsUnary(" " + more)
    ensures EndsAnd(" | " + more)
  {
    assert (" | " + more)[..2] == " |";
  }

  lemma MoreParts(parts: seq<Written>, rest: string)
    requires |parts| > 1
    ensures ShowAnd(parts) + rest == AtUnary(parts[0]) + (" " + (ShowAnd(parts[1..]) + rest))
  {
    assert ShowAnd(parts) == AtUnary(parts[0]) + (" " + ShowAnd(parts[1..]));
    hide *;
    Regroup(AtUnary(parts[0]), " ", ShowAnd(parts[1..]), rest);
  }

  lemma MoreBranches(parts: seq<Written>, rest: string)
    requires |parts| > 1
    ensures ShowOr(parts) + rest == AtAnd(parts[0]) + (" | " + (ShowOr(parts[1..]) + rest))
  {
    assert ShowOr(parts) == AtAnd(parts[0]) + (" | " + ShowOr(parts[1..]));
    hide *;
    Regroup(AtAnd(parts[0]), " | ", ShowOr(parts[1..]), rest);
  }

  lemma Regroup(a: string, b: string, c: string, d: string)
    ensures a + (b + c) + d == a + (b + (c + d))
  {
  }

  lemma AndStartsWithPart(parts: seq<Written>, rest: string)
    requires parts != [] && GoesOn(AtUnary(parts[0]))
    ensures GoesOn(ShowAnd(parts) + rest)
  {
    hide AtUnary;
    assert (ShowAnd(parts) + rest)[0] == AtUnary(parts[0])[0];
  }

  lemma {:induction false} AndRead(lex: Lexicon, w: Written, rest: string, f: Settings)
    requires ReadsNumbers(lex) && Canonical(lex, w) && EndsAnd(rest)
    ensures ParseAnd(lex, AtAnd(w) + rest, f) == Parsed(NodeOf(w), SkipWhitespace(rest), f + SettingsOf(w))
    decreases w, if w.Any? then 12 else 3
  {
    if w.All? {
      PartsRead(lex, w.parts, [], rest, f);
      assert [] + NodesOf(w.parts) == NodesOf(w.parts);
    } else {
      Sanity(lex);
      PartStarts(lex, w);
      UnaryRead(lex, w, rest, f);
      hide ReadsNumbers, Canonical, ParseUnary, AndLoop, GoesOn, NodeOf, SettingsOf;
      EndsBoth(rest);
      assert AtAnd(w) == AtUnary(w);
      GoesOnWith(AtUnary(w), rest);
      AndTakes(lex, AtUnary(w) + rest, NodeOf(w), rest, [], f, f + SettingsOf(w));
      AndStops(lex, rest, [NodeOf(w)], f + SettingsOf(w));
    }
  }

  /** What the Or level makes of a text after the branches read so far. */
  function OrOn(lex: Lexicon, text: string, done: seq<QueryNode>, f: Settings): Parsed {
    var p := ParseAnd(lex, text, f);
    OrLoop(lex, SkipWhitespace(p.rest), done + [p.node], p.settings)
  }

  lemma {:induction false} BranchesRead(lex: Lexicon, parts: seq<Written>, done: seq<QueryNode>, rest: string,
      f: Settings)
    requires ReadsNumbers(lex) && parts != [] && (forall k :: 0 <= k < |parts| ==> Canonical(lex, parts[k]))
    requires EndsOr(rest)
    ensures OrOn(lex, ShowOr(parts) + rest, done, f) ==
            Parsed(OrOf(done + NodesOf(parts)), rest, f + SettingsOfAll(parts))
    decreases parts, 1
  {
    hide *;
    FirstOfParts(parts, f);
    if |parts| == 1 {
      assert parts == [parts[0]];
      LastBranch(lex, parts[0], done, rest, f);
    } else {
      RestCanonical(lex, parts);
      FirstBranch(lex, parts, done, rest, f);
      BranchesRead(lex, parts[1..], done + [NodeOf(parts[0])], rest, f + SettingsOf(parts[0]));
      NodesAppend(done, NodeOf(parts[0]), NodesOf(parts[1..]));
    }
  }

  lemma {:induction false} LastBranch(lex: Lexicon, w: Written, done: seq<QueryNode>, rest: string, f: Settings)
    requires ReadsNumbers(lex) && Canonical(lex, w) && EndsOr(rest)
    ensures OrOn(lex, ShowOr([w]) + rest, done, f) == Parsed(OrOf(done + [NodeOf(w)]), rest, f + SettingsOf(w))
    decreases w, 20
  {
    EndsBoth(rest);
    OnePart(w);
    AndRead(lex, w, rest, f);
    OrStops(lex, rest, done + [NodeOf(w)], f + SettingsOf(w));
    hide ReadsNumbers, Canonical, ParseAnd, OrLoop, ShowOr, AtAnd, EndsOr, EndsAnd, NodeOf, SettingsOf;
  }

  lemma {:induction false} FirstBranch(lex: Lexicon, parts: seq<Written>, done: seq<QueryNode>, rest: string,
      f: Settings)
    requires ReadsNumbers(lex) && |parts| > 1 && Canonical(lex, parts[0]) && Canonical(lex, parts[1])
    ensures OrOn(lex, ShowOr(parts) + rest, done, f) ==
            OrOn(lex, ShowOr(parts[1..]) + rest, done + [NodeOf(parts[0])], f + SettingsOf(parts[0]))
    decreases parts, 0
  {
    var more := ShowOr(parts[1..]) + rest;
    hide ReadsNumbers, Canonical, ParseAnd, OrLoop, ShowOr, AtAnd, EndsOr, EndsAnd, GoesOn, SkipWhitespace, NodeOf,
        SettingsOf;
    Sanity(lex);
    PartStarts(lex, parts[1]);
    MoreBranches(parts, rest);
    SpaceEnds(more);
    AndRead(lex, parts[0], " | " + more, f);
    OrStartsWithBranch(parts[1..], rest);
    OrTakes(lex, more, done + [NodeOf(parts[0])], f + SettingsOf(parts[0]));
  }

  lemma OrStops(lex: Lexicon, rest: string, nodes: seq<QueryNode>, f: Settings)
    requires nodes != [] && EndsOr(rest)
    ensures SkipWhitespace(SkipWhitespace(rest)) == rest
    ensures OrLoop(lex, rest, nodes, f) == Parsed(OrOf(nodes), rest, f)
  {
  }

  lemma OrStartsWithBranch(parts: seq<Written>, rest: string)
    requires parts != [] && GoesOn(AtAnd(parts[0]))
    ensures GoesOn(ShowOr(parts) + rest)
  {
    hide AtAnd;
    assert (ShowOr(parts) + rest)[0] == AtAnd(parts[0])[0];
  }

  /** The Or level goes on after a bar. */
  lemma OrTakes(lex: Lexicon, more: string, nodes: seq<QueryNode>, f: Settings)
    requires nodes != [] && GoesOn(more)
    ensures SkipWhitespace(SkipWhitespace(" | " + more)) == "| " + more
    ensures var p := ParseAnd(lex, more, f);
            OrLoop(lex, "| " + more, nodes, f) == OrLoop(lex, SkipWhitespace(p.rest), nodes + [p.node], p.settings)
  {
    hide ParseAnd;
    assert (" | " + more)[1..] == "| " + more;
    assert SkipWhitespace(" | " + more) == "| " + more;
    assert ("| " + more)[1..] == " " + more;
    assert (" " + more)[1..] == more;
    assert SkipWhitespace(" " + more) == more;
  }

  lemma {:induction false} OrRead(lex: Lexicon, w: Written, rest: string, f: Settings)
    requires ReadsNumbers(lex) && Canonical(lex, w) && EndsOr(rest)
    ensures ParseOr(lex, Show(w) + rest, f) == Parsed(NodeOf(w), rest, f + SettingsOf(w))
    decreases w, 4
  {
    if w.Any? {
      BranchesRead(lex, w.parts, [], rest, f);
      assert forall x: QueryNode :: [] + [x] == [x];
      assert [] + NodesOf(w.parts) == NodesOf(w.parts);
    } else {
      EndsBoth(rest);
      AndRead(lex, w, rest, f);
      hide ReadsNumbers, Canonical, ParseAnd, NodeOf, SettingsOf;
      assert AtAnd(w) == Show(w);
    }
  }

  /**
    Parsing what was written gives the tree and the settings it stands for: any
    combination of words, with and without colons, settings, quoted texts,
    regexes, near with and without a distance, and boosts with and without a
    number, by And, Or and Not.
  */
  lemma ParsePrinted(lex: Lexicon, w: Written)
    requires ReadsNumbers(lex) && Canonical(lex, w)
    ensures ParseQuery(lex, Show(w)) == (NodeOf(w), SettingsOf(w))
  {
    OrRead(lex, w, "", []);
    assert Show(w) + "" == Show(w);
    assert [] + SettingsOf(w) == SettingsOf(w);
    hide NodeOf, SettingsOf, ParseOr, Show;
  }

  /** Everything after a closing parenthesis too many is ignored. */
  lemma StrayParenDropsRest(lex: Lexicon, w: Written, rest: string)
    requires ReadsNumbers(lex) && Canonical(lex, w)
    ensures ParseQuery(lex, Show(w) + (")" + rest)) == (NodeOf(w), SettingsOf(w))
  {
    OrRead(lex, w, ")" + rest, []);
    assert [] + SettingsOf(w) == SettingsOf(w);
    hide NodeOf, SettingsOf, ParseOr, Show;
  }

  // ---------------------------------------------------------------- single fields

  /** A word that is no known field, a colon and a value are one literal, and set nothing. */
  lemma UnknownFieldParsed(lex: Lexicon, field: string, value: string)
    requires ReadsNumbers(lex) && PlainWord(lex, field) && FieldValue(value)
    requires ToLower(field) !in {"path", "file", "name", "ext", "lang", "size", "line", "mtime", "near", "sort", "top"}
    requires !("re:/" <= field + (":" + value))
    ensures ParseQuery(lex, field + (":" + value)) == (Literal(field + (":" + value)), [])
  {
    assert ColonWord(lex, field, value);
    ParsePrinted(lex, Word(field + (":" + value)));
  }

  /** A known field other than near sets its value under its name in lower case, and leaves the tree empty. */
  lemma KnownFieldParsed(lex: Lexicon, field: string, value: string)
    requires ReadsNumbers(lex) && PlainWord(lex, field) && FieldValue(value)
    requires ToLower(field) in {"path", "file", "name", "ext", "lang", "size", "line", "mtime", "sort", "top"}
    ensures ParseQuery(lex, field + (":" + value)) == (Empty, [(ToLower(field), value)])
  {
    ParsePrinted(lex, Setting(field, value));
  }

  /** A negated filter leaves an empty negation in the tree, beside whatever follows. */
  lemma NegatedFilterParsed(lex: Lexicon, value: string, w: Written)
    requires ReadsNumbers(lex) && Canonical(lex, w) && FieldValue(value)
    ensures ParseQuery(lex, "-" + ("ext" + (":" + value)) + (" " + AtUnary(w))) ==
            (And([Not(Empty), NodeOf(w)]), [("ext", value)] + SettingsOf(w))
  {
    var negated := Negated(Setting("ext", value));
    hide *;
    ExtensionIsKnown(lex, value);
    NegatedShown(value);
    BothCanonical(lex, negated, w);
    BothShown(negated, w);
    ParsePrinted(lex, All([negated, w]));
  }

  lemma NegatedShown(value: string)
    ensures var w := Negated(Setting("ext", value));
            && AtUnary(w) == "-" + ("ext" + (":" + value)) && NodeOf(w) == Not(Empty)
            && SettingsOf(w) == [(ToLower("ext"), value)]
  {
    assert AtPrimary(Setting("ext", value)) == "ext" + (":" + value);
  }

  lemma BothShown(a: Written, b: Written)
    ensures Show(All([a, b])) == AtUnary(a) + (" " + AtUnary(b))
    ensures NodeOf(All([a, b])) == And([NodeOf(a), NodeOf(b)])
    ensures SettingsOf(All([a, b])) == SettingsOf(a) + SettingsOf(b)
  {
    hide *;
    TwoParts(a, b);
    OnePart(b);
    TwoMeanings(a, b);
  }

  lemma TwoMeanings(a: Written, b: Written)
    ensures NodeOf(All([a, b])) == And([NodeOf(a), NodeOf(b)])
    ensures SettingsOf(All([a, b])) == SettingsOf(a) + SettingsOf(b)
  {
    var both := [a, b];
    assert both[0] == a && both[1..] == [b] && both[1..][1..] == [];
    assert NodeOf(All(both)) == And(NodesOf(both)) && SettingsOf(All(both)) == SettingsOfAll(both);
    hide *;
    PartsUnfold(both);
    PartsUnfold([b]);
    NoParts();
    Appending([], SettingsOf(b), []);
    assert [NodeOf(a)] + ([NodeOf(b)] + []) == [NodeOf(a), NodeOf(b)];
  }

  lemma TwoParts(a: Written, b: Written)
    ensures Show(All([a, b])) == AtUnary(a) + (" " + ShowAnd([b]))
  {
    hide AtUnary;
    assert [a, b][1..] == [b];
    assert ShowAnd([a, b]) == AtUnary(a) + (" " + ShowAnd([a, b][1..]));
  }

  lemma ExtensionIsKnown(lex: Lexicon, value: string)
    requires ReadsNumbers(lex) && FieldValue(value)
    ensures Canonical(lex, Negated(Setting("ext", value))) && ToLower("ext") == "ext"
  {
    assert forall i :: 0 <= i < |"ext"| ==> WordChar(lex, "ext"[i]);
    assert ToLower("ext") == "ext";
    hide FieldValue;
  }

  lemma BothCanonical(lex: Lexicon, a: Written, b: Written)
    requires Canonical(lex, a) && Canonical(lex, b)
    ensures Canonical(lex, All([a, b]))
  {
  }

  // ------------------------------------------------------------- trees as written

  /** A way to write a query tree. */
  function WrittenOf(node: QueryNode): Written {
    match node
    case Empty => Word("")
    case Literal(t) => Word(t)
    case BoostedLiteral(t, b) => Raised(Some(b), true, t)
    case Phrase(t) => Quoted(t)
    case Regex(p) => Pattern(p)
    case Near(terms, distance) => Close(terms, Some(distance))
    case And(nodes) => All(AllWritten(nodes))
    case Or(nodes) => Any(AllWritten(nodes))
    case Not(inner) => Negated(WrittenOf(inner))
  }

  function AllWritten(nodes: seq<QueryNode>): (r: seq<Written>)
    ensures |r| == |nodes| && forall i :: 0 <= i < |nodes| ==> r[i] == WrittenOf(nodes[i])
  {
    if nodes == [] then [] else [WrittenOf(nodes[0])] + AllWritten(nodes[1..])
  }

  predicate NoEmpty(node: QueryNode) {
    match node
    case Empty => false
    case And(nodes) => forall k :: 0 <= k < |nodes| ==> NoEmpty(nodes[k])
    case Or(nodes) => forall k :: 0 <= k < |nodes| ==> NoEmpty(nodes[k])
    case Not(inner) => NoEmpty(inner)
    case _ => true
  }

  /** Every tree without empty parts is what its writing stands for. */
  lemma {:induction false} WrittenStandsFor(node: QueryNode)
    requires NoEmpty(node)
    ensures NodeOf(WrittenOf(node)) == node && SettingsOf(WrittenOf(node)) == []
    decreases node, 1
  {
    match node {
      case And(nodes) => PartsStandFor(nodes);
      case Or(nodes) => PartsStandFor(nodes);
      case Not(inner) => WrittenStandsFor(inner);
      case _ =>
    }
  }

  lemma {:induction false} PartsStandFor(nodes: seq<QueryNode>)
    requires forall k :: 0 <= k < |nodes| ==> NoEmpty(nodes[k])
    ensures NodesOf(AllWritten(nodes)) == nodes && SettingsOfAll(AllWritten(nodes)) == []
    decreases nodes, 0
  {
    if nodes != [] {
      WrittenStandsFor(nodes[0]);
      PartsStandFor(nodes[1..]);
      hide NodeOf, SettingsOf, WrittenOf;
      assert AllWritten(nodes)[1..] == AllWritten(nodes[1..]);
      assert nodes == [nodes[0]] + nodes[1..];
    }
  }

  /** Parsing the writing of a tree gives the tree back. */
  lemma ParsePrintedTree(lex: Lexicon, node: QueryNode)
    requires ReadsNumbers(lex) && NoEmpty(node) && Canonical(lex, WrittenOf(node))
    ensures ParseQuery(lex, Show(WrittenOf(node))) == (node, [])
  {
    hide *;
    WrittenStandsFor(node);
    ParsePrinted(lex, WrittenOf(node));
  }
}
