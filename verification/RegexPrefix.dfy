/**
  Literal prefixes of regexes (src/query/planner.rs:465-525): every match of a
  regex must contain the prefix taken from its text.
*/
module RegexPrefix {
  import opened Prelude
  import opened Text

  // -------------------------------------------------------------- the extraction

  /** An alternation bar outside escapes. */
  predicate HasBar(pattern: string, escaped: bool)
    decreases |pattern|
  {
    if pattern == "" then false
    else if escaped then HasBar(pattern[1..], false)
    else if pattern[0] == '\\' then HasBar(pattern[1..], true)
    else pattern[0] == '|' || HasBar(pattern[1..], false)
  }

  /** Quantifiers that make what stands before them optional. */
  predicate Optionally(c: char) {
    c == '*' || c == '?' || c == '{'
  }

  predicate Stops(c: char) {
    c == '.' || c == '+' || c == '[' || c == ']' || c == '(' || c == ')' || c == '}' || c == '$'
  }

  /** The prefix collected when the rest of the pattern has been looked at. */
  function Collect(rest: string, prefix: string): string
    decreases |rest|
  {
    if rest == "" then prefix
    else if rest[0] == '\\' then
      if |rest| == 1 then prefix
      else if rest[1] == 'n' then Collect(rest[2..], prefix + ['\n'])
      else if rest[1] == 't' then Collect(rest[2..], prefix + ['\t'])
      else if rest[1] == 'r' then Collect(rest[2..], prefix + ['\r'])
      else if IsAlnum(rest[1]) then prefix
      else Collect(rest[2..], prefix + [rest[1]])
    else if Optionally(rest[0]) then if prefix == "" then "" else prefix[..|prefix| - 1]
    else if Stops(rest[0]) then prefix
    else Collect(rest[1..], prefix + [rest[0]])
  }

  function ExtractPrefix(pattern: string): Option<string> {
    if HasBar(pattern, false) then None
    else
      var prefix := Collect(if pattern != "" && pattern[0] == '^' then pattern[1..] else pattern, "");
      if |Utf8(prefix)| >= 3 then Some(prefix) else None
  }

  method FindBar(pattern: string) returns (found: bool)
    ensures found == HasBar(pattern, false)
  {
    var escaped := false;
    var k := 0;
    while k < |pattern|
      invariant 0 <= k <= |pattern| && HasBar(pattern, false) == HasBar(pattern[k..], escaped)
    {
      assert pattern[k..][1..] == pattern[k + 1..];
      var ch := pattern[k];
      if escaped {
        escaped := false;
      } else if ch == '\\' {
        escaped := true;
      } else if ch == '|' {
        return true;
      }
      k := k + 1;
    }
    found := false;
  }

  method ExtractRegexPrefix(pattern: string) returns (r: Option<string>)
    ensures r == ExtractPrefix(pattern)
  {
    var bar := FindBar(pattern);
    if bar {
      return None;
    }
    var k := 0;
    if pattern != "" && pattern[0] == '^' {
      k := 1;
    }
    ghost var rest := pattern[k..];
    var prefix := "";
    while k < |pattern|
      invariant 0 <= k <= |pattern| && Collect(rest, "") == Collect(pattern[k..], prefix)
      decreases |pattern| - k
    {
      var ch := pattern[k];
      k := k + 1;
      assert pattern[k - 1..][1..] == pattern[k..];
      if ch == '\\' {
        if k == |pattern| {
          break;
        }
        var escaped := pattern[k];
        k := k + 1;
        assert pattern[k - 2..][2..] == pattern[k..];
        if escaped == 'n' {
          prefix := prefix + ['\n'];
        } else if escaped == 't' {
          prefix := prefix + ['\t'];
        } else if escaped == 'r' {
          prefix := prefix + ['\r'];
        } else if IsAlnum(escaped) {
          return if |Utf8(prefix)| >= 3 then Some(prefix) else None;
        } else {
          prefix := prefix + [escaped];
        }
      } else if Optionally(ch) {
        if prefix != "" {
          prefix := prefix[..|prefix| - 1];
        }
        return if |Utf8(prefix)| >= 3 then Some(prefix) else None;
      } else if Stops(ch) {
        return if |Utf8(prefix)| >= 3 then Some(prefix) else None;
      } else {
        prefix := prefix + [ch];
      }
    }
    r := if |Utf8(prefix)| >= 3 then Some(prefix) else None;
  }

  // --------------------------------------------------------------------- regexes

  datatype Regex = Regex(branches: seq<Branch>)

  datatype Branch = Branch(pieces: seq<Piece>)

  datatype Piece = Piece(atom: Atom, quantifier: Quantifier)

  datatype Atom =
    | Lit(c: char, escaped: bool)
    | Dot
    | Class(body: string, member: char -> bool)                // [body]
    | Shorthand(name: char, means: (string, nat, nat) -> bool) // \d, \w, \b and their kin
    | Start
    | End
    | Group(flags: string, inner: Regex)                       // (flags inner)

  datatype Quantifier =
    | One
    | Star(lazy: bool)
    | Plus(lazy: bool)
    | Opt(lazy: bool)
    | Range(bounds: string, min: nat, max: Option<nat>, lazy: bool)  // {bounds}

  predicate IsMeta(c: char) {
    c in "\\.+*?()|[]{}^$"
  }

  /** Whether an escape is open at the end of the text. */
  predicate OpenEscape(text: string, escaped: bool)
    decreases |text|
  {
    if text == "" then escaped
    else OpenEscape(text[1..], !escaped && text[0] == '\\')
  }

  ghost predicate WellFormed(r: Regex) {
    r.branches != [] && forall b :: 0 <= b < |r.branches| ==> WellFormedBranch(r.branches[b])
  }

  ghost predicate WellFormedBranch(b: Branch) {
    forall k :: 0 <= k < |b.pieces| ==> WellFormedPiece(b.pieces[k])
  }

  ghost predicate WellFormedPiece(p: Piece) {
    && (p.quantifier.Range? ==> !OpenEscape(p.quantifier.bounds, false))
    && match p.atom
       case Lit(c, escaped) =>
         if escaped then c == '\n' || c == '\t' || c == '\r' || (c as int < 0x80 && !IsAlnum(c) && c != '<' && c != '>')
         else !IsMeta(c)
       case Class(body, _) => !OpenEscape(body, false)
       case Shorthand(name, _) => IsAlnum(name) && name != 'n' && name != 't' && name != 'r'
       case Group(flags, inner) => !OpenEscape(flags, false) && WellFormed(inner)
       case _ => true
  }

  // -------------------------------------------------------------------- printing

  function LitText(c: char, escaped: bool): string {
    if !escaped then [c]
    else if c == '\n' then "\\n"
    else if c == '\t' then "\\t"
    else if c == '\r' then "\\r"
    else ['\\', c]
  }

  function LazyText(lazy: bool): string {
    if lazy then "?" else ""
  }

  function QuantifierText(q: Quantifier): string {
    match q
    case One => ""
    case Star(lazy) => "*" + LazyText(lazy)
    case Plus(lazy) => "+" + LazyText(lazy)
    case Opt(lazy) => "?" + LazyText(lazy)
    case Range(bounds, _, _, lazy) => "{" + bounds + "}" + LazyText(lazy)
  }

  function AtomText(a: Atom): string {
    match a
    case Lit(c, escaped) => LitText(c, escaped)
    case Dot => "."
    case Class(body, _) => "[" + body + "]"
    case Shorthand(name, _) => ['\\', name]
    case Start => "^"
    case End => "$"
    case Group(flags, inner) => "(" + flags + Print(inner, |inner.branches|) + ")"
  }

  /** The pieces of a branch from number `k` on. */
  function PiecesText(b: Branch, k: nat): string
    requires k <= |b.pieces|
    decreases b, |b.pieces| - k
  {
    if k == |b.pieces| then ""
    else AtomText(b.pieces[k].atom) + (QuantifierText(b.pieces[k].quantifier) + PiecesText(b, k + 1))
  }

  /** The first `n` branches with bars between them. */
  function Print(r: Regex, n: nat): string
    requires n <= |r.branches|
    decreases r, n
  {
    if n == 0 then ""
    else if n == 1 then PiecesText(r.branches[0], 0)
    else Print(r, n - 1) + "|" + PiecesText(r.branches[n - 1], 0)
  }

  // -------------------------------------------------------------------- matching

  /** The regex matches the stretch from `i` to `j` of `s`. */
  ghost predicate MatchRegex(r: Regex, s: string, i: nat, j: nat)
    decreases r
  {
    exists b :: 0 <= b < |r.branches| && MatchPieces(r.branches[b], 0, s, i, j)
  }

  /** The pieces from number `k` on match one after the other. */
  ghost predicate MatchPieces(b: Branch, k: nat, s: string, i: nat, j: nat)
    requires k <= |b.pieces|
    decreases b, |b.pieces| - k
  {
    if k == |b.pieces| then i == j
    else exists m: nat :: i <= m <= j && MatchPiece(b.pieces[k], s, i, m) && MatchPieces(b, k + 1, s, m, j)
  }

  predicate Admits(q: Quantifier, n: nat) {
    match q
    case One => n == 1
    case Star(_) => true
    case Plus(_) => n >= 1
    case Opt(_) => n <= 1
    case Range(_, min, max, _) => n >= min && (max.Some? ==> n <= max.value)
  }

  ghost predicate MatchPiece(p: Piece, s: string, i: nat, j: nat)
    decreases p, 1
  {
    exists n: nat :: Admits(p.quantifier, n) && Repeats(p.atom, n, s, i, j)
  }

  ghost predicate Repeats(a: Atom, n: nat, s: string, i: nat, j: nat)
    decreases a, n
  {
    if n == 0 then i == j
    else exists m: nat :: i <= m <= j && MatchAtom(a, s, i, m) && Repeats(a, n - 1, s, m, j)
  }

  ghost predicate MatchAtom(a: Atom, s: string, i: nat, j: nat)
    decreases a, 0
  {
    match a
    case Lit(c, _) => j == i + 1 && i < |s| && s[i] == c
    case Dot => j == i + 1 && i < |s| && s[i] != '\n'
    case Class(_, member) => j == i + 1 && i < |s| && member(s[i])
    case Shorthand(_, means) => i <= j <= |s| && means(s, i, j)
    case Start => i == 0 && j == 0
    case End => i == |s| && j == |s|
    case Group(_, inner) => MatchRegex(inner, s, i, j)
  }

  /** The regex is found somewhere in the text. */
  ghost predicate Found(r: Regex, s: string) {
    exists i: nat, j: nat :: i <= j <= |s| && MatchRegex(r, s, i, j)
  }

  // ------------------------------------------------------- the prefix is required

  lemma FirstRepeat(p: Piece, s: string, i: nat, j: nat)
    requires MatchPiece(p, s, i, j) && (p.quantifier.One? || p.quantifier.Plus?)
    ensures exists m: nat :: i <= m <= j && MatchAtom(p.atom, s, i, m)
    ensures p.quantifier.One? ==> MatchAtom(p.atom, s, i, j)
  {
    var n: nat :| Admits(p.quantifier, n) && Repeats(p.atom, n, s, i, j);
    FirstOf(p.atom, n, s, i, j);
  }

  lemma FirstOf(a: Atom, n: nat, s: string, i: nat, j: nat)
    requires n > 0 && Repeats(a, n, s, i, j)
    ensures exists m: nat :: i <= m <= j && MatchAtom(a, s, i, m)
    ensures n == 1 ==> MatchAtom(a, s, i, j)
  {
    hide MatchAtom;
    var m: nat :| i <= m <= j && MatchAtom(a, s, i, m) && Repeats(a, n - 1, s, m, j);
  }

  /** The collection goes past a literal, and takes it back when a quantifier makes it optional. */
  lemma CollectLit(c: char, escaped: bool, rest: string, prefix: string)
    requires WellFormedPiece(Piece(Lit(c, escaped), One))
    ensures Collect(LitText(c, escaped) + rest, prefix) == Collect(rest, prefix + [c])
  {
    var text := LitText(c, escaped) + rest;
    if escaped {
      assert text[2..] == rest;
    } else {
      assert text[1..] == rest;
    }
  }

  lemma CollectQuantifier(q: Quantifier, rest: string, prefix: string)
    requires !q.One?
    ensures q.Plus? ==> Collect(QuantifierText(q) + rest, prefix) == prefix
    ensures !q.Plus? ==>
            Collect(QuantifierText(q) + rest, prefix) == if prefix == "" then "" else prefix[..|prefix| - 1]
  {
  }

  /** Where the collection stops at an atom. */
  lemma CollectStops(a: Atom, rest: string, prefix: string)
    requires a.Dot? || a.Class? || a.Shorthand? || a.End? || a.Group?
    requires WellFormedPiece(Piece(a, One))
    ensures Collect(AtomText(a) + rest, prefix) == prefix
  {
  }

  /** A start anchor in the middle is taken for a character. */
  lemma CollectCaret(rest: string, prefix: string)
    ensures Collect("^" + rest, prefix) == Collect(rest, prefix + ['^'])
  {
    assert ("^" + rest)[1..] == rest;
  }

  /** Nothing anchors the start again where it could hold. */
  predicate NotAnchored(b: Branch, k: nat, m: nat)
    requires k <= |b.pieces|
  {
    m == 0 && k < |b.pieces| ==> !b.pieces[k].atom.Start?
  }

  lemma SliceGrows(s: string, i: nat, m: nat, c: char)
    requires i <= m < |s| && s[m] == c
    ensures s[i..m] + [c] == s[i..m + 1]
  {
  }

  /**
    What has been collected is what has been matched so far, so whatever is
    collected in the end stands in the text where the match begins.
  */
  lemma {:induction false} CollectedIsMatched(b: Branch, k: nat, s: string, i: nat, m: nat, j: nat)
    requires k <= |b.pieces| && WellFormedBranch(b) && i <= m <= j <= |s| && MatchPieces(b, k, s, m, j)
    requires NotAnchored(b, k, m)
    ensures At(s, Collect(PiecesText(b, k), s[i..m]), i)
    decreases |b.pieces| - k, 1
  {
    if k < |b.pieces| {
      var p, rest := b.pieces[k], PiecesText(b, k + 1);
      var next: nat :| m <= next <= j && MatchPiece(p, s, m, next) && MatchPieces(b, k + 1, s, next, j);
      assert WellFormedPiece(p);
      assert PiecesText(b, k) == AtomText(p.atom) + (QuantifierText(p.quantifier) + rest);
      hide MatchPiece, WellFormedPiece, Collect, PiecesText;
      match p.atom {
        case Lit(c, escaped) => LitMatched(b, k, s, i, m, next, j);
        case Start => StartMatched(p, s, i, m, next, rest);
        case _ => StopMatched(p, s, i, m, rest);
      }
    }
  }

  lemma {:induction false} LitMatched(b: Branch, k: nat, s: string, i: nat, m: nat, next: nat, j: nat)
    requires k < |b.pieces| && WellFormedBranch(b) && i <= m <= next <= j <= |s| && b.pieces[k].atom.Lit?
    requires MatchPiece(b.pieces[k], s, m, next) && MatchPieces(b, k + 1, s, next, j)
    ensures At(s, Collect(AtomText(b.pieces[k].atom) +
            (QuantifierText(b.pieces[k].quantifier) + PiecesText(b, k + 1)), s[i..m]), i)
    decreases |b.pieces| - k, 0
  {
    var p, rest := b.pieces[k], PiecesText(b, k + 1);
    assert WellFormedPiece(p);
    LitCollected(p, s, i, m, next, rest);
    hide WellFormedPiece, MatchPiece, MatchPieces, Collect, PiecesText, AtomText, QuantifierText;
    if p.quantifier.One? {
      CollectedIsMatched(b, k + 1, s, i, next, j);
    }
  }

  /** A literal adds the matched character, unless a quantifier makes it optional. */
  lemma LitCollected(p: Piece, s: string, i: nat, m: nat, next: nat, rest: string)
    requires WellFormedPiece(p) && p.atom.Lit? && i <= m <= next <= |s| && MatchPiece(p, s, m, next)
    ensures var all := Collect(AtomText(p.atom) + (QuantifierText(p.quantifier) + rest), s[i..m]);
            if p.quantifier.One? then next == m + 1 && all == Collect(rest, s[i..next]) else At(s, all, i)
  {
    var c := p.atom.c;
    assert WellFormedPiece(Piece(p.atom, One));
    CollectLit(c, p.atom.escaped, QuantifierText(p.quantifier) + rest, s[i..m]);
    if p.quantifier.One? || p.quantifier.Plus? {
      FirstRepeat(p, s, m, next);
      SliceGrows(s, i, m, c);
    }
    hide WellFormedPiece, MatchPiece, Collect, MatchAtom;
    if p.quantifier.One? {
      assert QuantifierText(p.quantifier) + rest == rest;
    } else {
      CollectQuantifier(p.quantifier, rest, s[i..m] + [c]);
    }
  }

  lemma StartMatched(p: Piece, s: string, i: nat, m: nat, next: nat, rest: string)
    requires p.atom.Start? && i <= m <= next <= |s| && m > 0 && MatchPiece(p, s, m, next)
    ensures At(s, Collect(AtomText(p.atom) + (QuantifierText(p.quantifier) + rest), s[i..m]), i)
  {
    CollectCaret(QuantifierText(p.quantifier) + rest, s[i..m]);
    if p.quantifier.One? || p.quantifier.Plus? {
      FirstRepeat(p, s, m, next);
    } else {
      CollectQuantifier(p.quantifier, rest, s[i..m] + ['^']);
      hide Collect;
    }
  }

  lemma StopMatched(p: Piece, s: string, i: nat, m: nat, rest: string)
    requires WellFormedPiece(p) && !p.atom.Lit? && !p.atom.Start? && i <= m <= |s|
    ensures At(s, Collect(AtomText(p.atom) + (QuantifierText(p.quantifier) + rest), s[i..m]), i)
  {
    CollectStops(p.atom, QuantifierText(p.quantifier) + rest, s[i..m]);
    hide Collect;
  }

  // ------------------------------------------------------------- alternation bars

  lemma {:induction false} BarConcat(a: string, b: string, escaped: bool)
    ensures HasBar(a + b, escaped) <==> HasBar(a, escaped) || HasBar(b, OpenEscape(a, escaped))
    ensures OpenEscape(a + b, escaped) == OpenEscape(b, OpenEscape(a, escaped))
    decreases |a|
  {
    if a == "" {
      assert a + b == b;
    } else {
      assert (a + b)[1..] == a[1..] + b;
      BarConcat(a[1..], b, !escaped && a[0] == '\\');
    }
  }

  lemma EscapeCloses(c: char)
    ensures !OpenEscape(['\\', c], false)
  {
    var text := ['\\', c];
    assert text[1..] == [c] && text[1..][1..] == "";
    assert OpenEscape(text, false) == OpenEscape([c], true) == OpenEscape("", false);
  }

  lemma LitCloses(c: char, escaped: bool)
    requires WellFormedPiece(Piece(Lit(c, escaped), One))
    ensures !OpenEscape(LitText(c, escaped), false)
  {
    var text := LitText(c, escaped);
    if escaped {
      EscapeCloses(text[1]);
      assert text == ['\\', text[1]];
    } else {
      OneChar(text);
    }
  }

  /** Every printed piece closes its escapes, so a bar between branches is seen as one. */
  lemma {:induction false} AtomCloses(a: Atom)
    requires WellFormedPiece(Piece(a, One))
    ensures !OpenEscape(AtomText(a), false)
    decreases a
  {
    match a {
      case Lit(c, escaped) => LitCloses(c, escaped);
      case Class(body, _) =>
        Closed("[" + body, "]");
        Closed("[", body);
      case Shorthand(name, _) => EscapeCloses(name);
      case Group(flags, inner) =>
        Closed("(", flags);
        PrintCloses(inner, |inner.branches|);
        Closed("(" + flags, Print(inner, |inner.branches|));
        Closed("(" + flags + Print(inner, |inner.branches|), ")");
      case _ => OneChar(AtomText(a));
    }
  }

  lemma Closed(a: string, b: string)
    requires (|a| == 1 && a[0] != '\\') || !OpenEscape(a, false)
    requires (|b| == 1 && b[0] != '\\') || !OpenEscape(b, false)
    ensures !OpenEscape(a + b, false)
  {
    OneChar(a);
    OneChar(b);
    BarConcat(a, b, false);
  }

  lemma OneChar(a: string)
    ensures |a| == 1 && a[0] != '\\' ==> !OpenEscape(a, false)
  {
    if |a| == 1 {
      assert a[1..] == "";
    }
  }

  lemma QuantifierCloses(q: Quantifier)
    requires q.Range? ==> !OpenEscape(q.bounds, false)
    ensures !OpenEscape(QuantifierText(q), false)
  {
    match q {
      case One =>
      case Range(bounds, _, _, lazy) =>
        Closed("{", bounds);
        Closed("{" + bounds, "}");
        LazyCloses(lazy);
        Closed("{" + bounds + "}", LazyText(lazy));
      case Star(lazy) =>
        LazyCloses(lazy);
        Closed("*", LazyText(lazy));
      case Plus(lazy) =>
        LazyCloses(lazy);
        Closed("+", LazyText(lazy));
      case Opt(lazy) =>
        LazyCloses(lazy);
        Closed("?", LazyText(lazy));
    }
  }

  lemma LazyCloses(lazy: bool)
    ensures !OpenEscape(LazyText(lazy), false)
  {
    OneChar(LazyText(lazy));
  }

  lemma {:induction false} PiecesClose(b: Branch, k: nat)
    requires k <= |b.pieces| && WellFormedBranch(b)
    ensures !OpenEscape(PiecesText(b, k), false)
    decreases b, |b.pieces| - k
  {
    if k < |b.pieces| {
      var p := b.pieces[k];
      assert WellFormedPiece(p) && WellFormedPiece(Piece(p.atom, One));
      AtomCloses(p.atom);
      QuantifierCloses(p.quantifier);
      PiecesClose(b, k + 1);
      Closed(QuantifierText(p.quantifier), PiecesText(b, k + 1));
      Closed(AtomText(p.atom), QuantifierText(p.quantifier) + PiecesText(b, k + 1));
    }
  }

  lemma {:induction false} PrintCloses(r: Regex, n: nat)
    requires WellFormed(r) && n <= |r.branches|
    ensures !OpenEscape(Print(r, n), false)
    decreases r, n
  {
    if n == 1 {
      PiecesClose(r.branches[0], 0);
    } else if n > 1 {
      PrintCloses(r, n - 1);
      PiecesClose(r.branches[n - 1], 0);
      Closed(Print(r, n - 1), "|");
      Closed(Print(r, n - 1) + "|", PiecesText(r.branches[n - 1], 0));
    }
  }

  /** With more than one branch the bar is found, and no prefix is taken. */
  lemma BarFound(r: Regex)
    requires WellFormed(r) && |r.branches| >= 2
    ensures HasBar(Print(r, |r.branches|), false)
  {
    var n := |r.branches|;
    PrintCloses(r, n - 1);
    var before, last := Print(r, n - 1), PiecesText(r.branches[n - 1], 0);
    BarConcat(before + "|", last, false);
    BarConcat(before, "|", false);
    assert HasBar("|", false);
  }

  // -------------------------------------------------------------------- the claim

  /** Whether a pattern starts with two anchors. */
  predicate DoubleCaret(pattern: string) {
    "^^" <= pattern
  }

  /**
    Every text a regex is found in contains the prefix taken from its pattern,
    unless the pattern starts with two anchors.
  */
  lemma PrefixRequired(r: Regex, s: string)
    requires WellFormed(r) && Found(r, s)
    requires ExtractPrefix(Print(r, |r.branches|)).Some? && !DoubleCaret(Print(r, |r.branches|))
    ensures Contains(s, ExtractPrefix(Print(r, |r.branches|)).value)
  {
    if |r.branches| >= 2 {
      BarFound(r);
    } else {
      var b := r.branches[0];
      var i: nat, j: nat :| i <= j <= |s| && MatchRegex(r, s, i, j);
      assert MatchPieces(b, 0, s, i, j);
      assert WellFormedBranch(b);
      hide MatchRegex, WellFormed;
      PiecesRequire(b, s, i, j);
    }
  }

  lemma PiecesRequire(b: Branch, s: string, i: nat, j: nat)
    requires WellFormedBranch(b) && i <= j <= |s| && MatchPieces(b, 0, s, i, j)
    requires ExtractPrefix(PiecesText(b, 0)).Some? && !DoubleCaret(PiecesText(b, 0))
    ensures Contains(s, ExtractPrefix(PiecesText(b, 0)).value)
  {
    var text := PiecesText(b, 0);
    assert s[i..i] == "";
    hide Utf8;
    if b.pieces != [] && b.pieces[0].atom.Start? {
      AnchoredRequires(b, s, i, j);
    } else {
      if b.pieces != [] {
        assert WellFormedPiece(b.pieces[0]);
        FirstChar(b.pieces[0]);
      }
      CollectedIsMatched(b, 0, s, i, i, j);
      assert At(s, Collect(text, ""), i);
    }
  }

  lemma FirstChar(p: Piece)
    requires WellFormedPiece(p)
    ensures AtomText(p.atom) != "" && (AtomText(p.atom)[0] == '^' <==> p.atom.Start?)
  {
  }

  lemma NoPrefix()
    ensures |Utf8("")| == 0
  {
  }

  lemma AnchoredRequires(b: Branch, s: string, i: nat, j: nat)
    requires WellFormedBranch(b) && i <= j <= |s| && MatchPieces(b, 0, s, i, j) && b.pieces != []
    requires b.pieces[0].atom.Start?
    requires ExtractPrefix(PiecesText(b, 0)).Some? && !DoubleCaret(PiecesText(b, 0))
    ensures Contains(s, ExtractPrefix(PiecesText(b, 0)).value)
  {
    var p, rest := b.pieces[0], PiecesText(b, 1);
    var text := PiecesText(b, 0);
    assert text == "^" + (QuantifierText(p.quantifier) + rest);
    assert text[1..] == QuantifierText(p.quantifier) + rest;
    NoPrefix();
    if !p.quantifier.One? {
      CollectQuantifier(p.quantifier, rest, "");
    } else {
      assert text[1..] == rest;
      var m: nat :| i <= m <= j && MatchPiece(p, s, i, m) && MatchPieces(b, 1, s, m, j);
      FirstRepeat(p, s, i, m);
      hide Utf8, Collect, MatchPiece, MatchPieces;
      if |b.pieces| > 1 {
        assert WellFormedPiece(b.pieces[1]);
        FirstChar(b.pieces[1]);
        SecondChar(b, text);
      }
      CollectedIsMatched(b, 1, s, 0, 0, j);
      assert s[0..0] == "";
      assert At(s, Collect(rest, ""), 0);
    }
  }

  lemma SecondChar(b: Branch, text: string)
    requires |b.pieces| > 1 && text == "^" + PiecesText(b, 1) && AtomText(b.pieces[1].atom) != ""
    ensures AtomText(b.pieces[1].atom)[0] == '^' ==> DoubleCaret(text)
  {
    assert PiecesText(b, 1)[0] == AtomText(b.pieces[1].atom)[0];
    if AtomText(b.pieces[1].atom)[0] == '^' {
      assert text[..2] == "^^";
    }
  }

  // ------------------------------------------------------- no less than all there is

  /** Literals one after the other, each escaped or not. */
  function LettersText(letters: seq<(char, bool)>): string {
    if letters == [] then "" else LitText(letters[0].0, letters[0].1) + LettersText(letters[1..])
  }

  function Chars(letters: seq<(char, bool)>): (r: string)
    ensures |r| == |letters| && forall k :: 0 <= k < |letters| ==> r[k] == letters[k].0
  {
    seq(|letters|, k requires 0 <= k < |letters| => letters[k].0)
  }

  ghost predicate AllLetters(letters: seq<(char, bool)>) {
    forall k :: 0 <= k < |letters| ==> WellFormedPiece(Piece(Lit(letters[k].0, letters[k].1), One))
  }

  lemma NoBarIn(rest: string, escaped: bool)
    requires '|' !in rest
    ensures !HasBar(rest, escaped)
    decreases |rest|
  {
  }

  lemma LitNoBar(c: char, escaped: bool, rest: string)
    requires WellFormedPiece(Piece(Lit(c, escaped), One))
    ensures HasBar(LitText(c, escaped) + rest, false) == HasBar(rest, false)
  {
    var text := LitText(c, escaped) + rest;
    if escaped {
      assert text[1..][1..] == rest;
    } else {
      assert text[1..] == rest;
    }
  }

  lemma LettersCons(letters: seq<(char, bool)>, rest: string, prefix: string)
    requires letters != [] && AllLetters(letters)
    ensures LettersText(letters) + rest ==
            LitText(letters[0].0, letters[0].1) + (LettersText(letters[1..]) + rest)
    ensures prefix + Chars(letters) == prefix + [letters[0].0] + Chars(letters[1..])
    ensures WellFormedPiece(Piece(Lit(letters[0].0, letters[0].1), One)) && AllLetters(letters[1..])
  {
    hide WellFormedPiece, LitText;
    assert Chars(letters) == [letters[0].0] + Chars(letters[1..]);
  }

  lemma NoLetters(rest: string, prefix: string)
    ensures LettersText([]) + rest == rest && prefix + Chars([]) == prefix
  {
  }

  lemma {:induction false} LettersCollect(letters: seq<(char, bool)>, rest: string, prefix: string)
    requires AllLetters(letters)
    ensures Collect(LettersText(letters) + rest, prefix) == Collect(rest, prefix + Chars(letters))
    ensures HasBar(LettersText(letters) + rest, false) == HasBar(rest, false)
    decreases |letters|
  {
    hide *;
    if letters == [] {
      NoLetters(rest, prefix);
    } else {
      var c, escaped := letters[0].0, letters[0].1;
      var more := LettersText(letters[1..]) + rest;
      LettersCons(letters, rest, prefix);
      CollectLit(c, escaped, more, prefix);
      LitNoBar(c, escaped, more);
      LettersCollect(letters[1..], rest, prefix + [c]);
    }
  }

  lemma LettersStart(letters: seq<(char, bool)>, rest: string)
    requires AllLetters(letters) && letters != []
    ensures LettersText(letters) + rest != "" && (LettersText(letters) + rest)[0] != '^'
  {
    assert WellFormedPiece(Piece(Lit(letters[0].0, letters[0].1), One));
  }

  lemma PrefixAfter(anchored: bool, text: string)
    requires (text != "" ==> text[0] != '^') && !HasBar(text, false)
    ensures ExtractPrefix((if anchored then "^" else "") + text) ==
            if |Utf8(Collect(text, ""))| >= 3 then Some(Collect(text, "")) else None
  {
    hide Collect, Utf8;
    if anchored {
      assert ("^" + text)[1..] == text;
      hide ExtractPrefix;
      assert HasBar("^" + text, false) == HasBar(text, false);
      ExtractIs("^" + text, text);
    } else {
      assert "" + text == text;
      hide HasBar;
    }
  }

  lemma ExtractIs(pattern: string, text: string)
    requires pattern == "^" + text && !HasBar(pattern, false)
    ensures ExtractPrefix(pattern) == if |Utf8(Collect(text, ""))| >= 3 then Some(Collect(text, "")) else None
  {
    assert pattern[1..] == text;
    hide Collect, Utf8, HasBar;
  }

  predicate LastIsOptional(rest: string) {
    rest != "" && rest[0] in "*?{"
  }

  lemma CollectEnds(rest: string, prefix: string)
    requires rest != "" ==> rest[0] in ".+[]()}$*?{"
    ensures Collect(rest, prefix) == if LastIsOptional(rest) && prefix != "" then prefix[..|prefix| - 1] else prefix
  {
  }

  /**
    All the literals a pattern begins with are taken, up to its end or the first
    character that is none; the last one not when it may be missing.
  */
  lemma WholePrefix(anchored: bool, letters: seq<(char, bool)>, rest: string)
    requires AllLetters(letters) && '|' !in rest
    requires rest != "" ==> rest[0] in ".+[]()}$*?{"
    ensures var taken := Chars(if LastIsOptional(rest) && letters != [] then letters[..|letters| - 1] else letters);
            ExtractPrefix((if anchored then "^" else "") + (LettersText(letters) + rest)) ==
            if |Utf8(taken)| >= 3 then Some(taken) else None
  {
    var text := LettersText(letters) + rest;
    NoBarIn(rest, false);
    LettersCollect(letters, rest, "");
    assert "" + Chars(letters) == Chars(letters);
    CollectEnds(rest, Chars(letters));
    if letters != [] {
      LettersStart(letters, rest);
      assert Chars(letters)[..|letters| - 1] == Chars(letters[..|letters| - 1]);
    } else {
      assert text == rest;
    }
    hide *;
    PrefixAfter(anchored, text);
  }

  // ------------------------------------------------------------ where it breaks

  /** Two start anchors and the characters of a word. */
  function TwiceAnchored(w: string): Branch {
    Branch([Piece(Start, One), Piece(Start, One)] + seq(|w|, k requires 0 <= k < |w| => Piece(Lit(w[k], false), One)))
  }

  lemma {:induction false} WordText(w: string, k: nat)
    requires k <= |w|
    ensures PiecesText(TwiceAnchored(w), k + 2) == w[k..]
    decreases |w| - k
  {
    if k < |w| {
      WordText(w, k + 1);
      assert w[k..] == [w[k]] + w[k + 1..];
    }
  }

  lemma {:induction false} WordCollects(w: string, prefix: string)
    requires forall k :: 0 <= k < |w| ==> !IsMeta(w[k])
    ensures Collect(w, prefix) == prefix + w && !HasBar(w, false)
    decreases |w|
  {
    if w != "" {
      WordCollects(w[1..], prefix + [w[0]]);
      assert prefix + [w[0]] + w[1..] == prefix + w;
    }
  }

  lemma OnceMatches(a: Atom, s: string, i: nat, j: nat)
    requires i <= j && MatchAtom(a, s, i, j)
    ensures MatchPiece(Piece(a, One), s, i, j)
  {
    assert Repeats(a, 0, s, j, j);
    assert Repeats(a, 1, s, i, j);
  }

  lemma {:induction false} WordMatches(w: string, k: nat)
    requires k <= |w|
    ensures MatchPieces(TwiceAnchored(w), k + 2, w, k, |w|)
    decreases |w| - k
  {
    if k < |w| {
      WordMatches(w, k + 1);
      assert TwiceAnchored(w).pieces[k + 2] == Piece(Lit(w[k], false), One);
      OnceMatches(Lit(w[k], false), w, k, k + 1);
      hide MatchPiece;
    }
  }

  lemma TwiceAnchoredMatches(w: string)
    ensures Found(Regex([TwiceAnchored(w)]), w)
  {
    var b := TwiceAnchored(w);
    WordMatches(w, 0);
    OnceMatches(Start, w, 0, 0);
    hide MatchPiece;
    assert b.pieces[0] == b.pieces[1] == Piece(Start, One);
    assert MatchPieces(b, 1, w, 0, |w|);
    assert MatchPieces(b, 0, w, 0, |w|);
    assert Regex([b]).branches[0] == b;
    assert MatchRegex(Regex([b]), w, 0, |w|);
  }

  /**
    A word after two anchors matches itself, yet the prefix taken is the word
    after one: the word does not contain that.
  */
  lemma TwoAnchorsLie(w: string)
    requires |Utf8("^" + w)| >= 3 && forall k :: 0 <= k < |w| ==> !IsMeta(w[k])
    ensures var r := Regex([TwiceAnchored(w)]);
            && Print(r, 1) == "^^" + w
            && ExtractPrefix("^^" + w) == Some("^" + w)
            && Found(r, w) && !Contains(w, "^" + w)
  {
    TwiceAnchoredText(w);
    TwiceAnchoredMatches(w);
    hide Found, Utf8, Collect, HasBar, PiecesText;
    AnchoredWord(w);
  }

  lemma TwiceAnchoredText(w: string)
    ensures PiecesText(TwiceAnchored(w), 0) == "^^" + w
  {
    var b := TwiceAnchored(w);
    WordText(w, 0);
    assert w[0..] == w;
    assert PiecesText(b, 1) == "^" + ("" + PiecesText(b, 2)) == "^" + w;
    assert PiecesText(b, 0) == "^" + ("" + PiecesText(b, 1));
    hide PiecesText, TwiceAnchored;
    assert "^" + ("" + ("^" + w)) == "^^" + w;
  }

  lemma AnchoredWord(w: string)
    requires |Utf8("^" + w)| >= 3 && forall k :: 0 <= k < |w| ==> !IsMeta(w[k])
    ensures ExtractPrefix("^^" + w) == Some("^" + w)
  {
    var pattern := "^^" + w;
    WordCollects(w, "^");
    assert pattern[1..] == "^" + w && pattern[1..][1..] == w;
    CollectCaret(w, "");
    assert "" + ['^'] == "^";
    assert !HasBar(pattern, false) by {
      assert HasBar(pattern, false) == HasBar(pattern[1..], false) == HasBar(w, false);
    }
    hide Utf8, Collect, HasBar;
  }
}
