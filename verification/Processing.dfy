/**
  From a file's bytes to what is indexed of it (src/index/build.rs:63-104,
  src/server/daemon_core.rs:1224-1269): one extraction for the scan, the watcher
  and the full build.
*/
module Processing {
  import opened Prelude
  import opened Text
  import opened Index
  import opened Extraction
  import opened Trigrams
  import opened Tokenizer
  import opened LineMap
  import opened Pipelines

  /** What is told from a name and the bytes by tables and heuristics. */
  datatype Detector = Detector(isBinary: seq<Byte> -> bool, isMinified: seq<Byte> -> bool, language: Path -> nat)

  /** The bytes are the encoding of a text. */
  predicate IsText(content: seq<Byte>) {
    Utf8(FromUtf8Lossy(content)) == content
  }

  lemma TextIff(content: seq<Byte>)
    ensures IsText(content) <==> exists s :: content == Utf8(s)
  {
    hide Utf8, FromUtf8Lossy;
    if s :| content == Utf8(s) {
      LossyRoundTrip(s);
    }
  }

  /** The words of the bytes: those of the text they encode, none if they encode no text. */
  function Words(content: seq<Byte>): seq<Positioned> {
    if IsText(content) then Tokens(FromUtf8Lossy(content)) else []
  }

  /** What is indexed of a content: all its trigrams, words and lines. */
  ghost predicate Processed(f: ProcessedFile, content: seq<Byte>) {
    && f.size == |content|
    && Distinct(f.trigrams) && Elements(f.trigrams) == Windows(content)
    && Expands(f.tokens, f.tokenPositions, Words(content), |Words(content)|)
    && f.lineOffsets == LineStarts(content, |content|)
  }

  /** `process_file_content`: None for binary content. */
  method ProcessFileContent(relPath: Path, content: seq<Byte>, mtime: nat, detect: Detector)
      returns (r: Option<ProcessedFile>)
    ensures r.None? <==> detect.isBinary(content)
    ensures r.Some? ==>
            && Processed(r.value, content)
            && r.value.relPath == relPath && r.value.mtime == mtime
            && r.value.language == detect.language(relPath) && r.value.minified == detect.isMinified(content)
  {
    if detect.isBinary(content) {
      return None;
    }
    hide Windows, Expands, Tokens, LineStarts, Distinct;
    var trigrams := ExtractTrigrams(content);
    var tokens: seq<Token>, positions: seq<(nat, nat)> := [], [];
    if IsText(content) {
      tokens, positions := ExtractTokensAndPositions(FromUtf8Lossy(content));
    } else {
      NoWords();
    }
    var lineOffsets := BuildLineMap(content);
    r := Some(ProcessedFile(relPath, mtime, |content|, detect.language(relPath), detect.isMinified(content),
                            trigrams, tokens, lineOffsets, positions));
  }

  lemma NoWords()
    ensures Expands([], [], [], 0)
  {
    hide Distinct;
    assert Distinct<Token>([]) by { NoneDistinct(); }
  }

  lemma NoneDistinct()
    ensures Distinct<Token>([])
  {
  }

  /** An extractor that indexes contents as `ProcessFileContent` does. */
  ghost predicate Faithful(extract: Extractor) {
    forall p, f :: extract(p, f).Some? ==> Processed(extract(p, f).value, f.content) && extract(p, f).value.relPath == p
  }

  lemma ProcessedIsWellFormed(f: ProcessedFile, content: seq<Byte>)
    requires Processed(f, content)
    ensures WellFormedFile(f)
  {
    hide Words, Windows, LineStarts;
  }

  lemma WordsIncrease(content: seq<Byte>)
    ensures forall i, j :: 0 <= i < j < |Words(content)| ==> Words(content)[i].1 < Words(content)[j].1
  {
    TokensIncrease(FromUtf8Lossy(content));
    hide Tokens, IsText;
  }

  /** Word positions rise through a processed file, as the flat pipeline and the position codec need. */
  lemma ProcessedRises(f: ProcessedFile, content: seq<Byte>)
    requires Processed(f, content)
    ensures RisingPositions(f)
  {
    var l := Words(content);
    WordsIncrease(content);
    hide Words, Windows, LineStarts;
    forall i, j | 0 <= i < j < |f.tokenPositions|
      ensures f.tokenPositions[i].1 < f.tokenPositions[j].1
    {
      assert l[i].1 == f.tokenPositions[i].1 && l[j].1 == f.tokenPositions[j].1;
    }
  }

  /** Every token of a processed file is a word of it, somewhere, and no longer than a word may be. */
  lemma ProcessedToken(f: ProcessedFile, content: seq<Byte>, t: Token) returns (k: nat)
    requires Processed(f, content) && t in f.tokens
    ensures k < |f.tokenPositions| && f.tokenPositions[k].0 < |f.tokens| && f.tokens[f.tokenPositions[k].0] == t
    ensures |Utf8(t)| == |t| <= MAX_TOKEN_LENGTH
  {
    var l := Words(content);
    assert l[..|l|] == l;
    assert t in Elements(f.tokens);
    k :| 0 <= k < |l| && l[k].0 == t;
    assert (t, l[k].1) in l;
    var s := FromUtf8Lossy(content);
    hide Tokens, Expands, Windows, LineStarts, Processed, IsText, Utf8, FromUtf8Lossy;
    TokensAreWords(s, t, l[k].1);
    var a: nat, b: nat :| WordIs(s, a, b, t, l[k].1);
    AsciiWord(s, a, b);
    assert |t| == b - a;
    AsciiLength(t);
  }

  lemma AsciiWord(s: string, a: nat, b: nat)
    requires a < b <= |s| && forall i :: a <= i < b ==> IsAlnum(s[i])
    ensures forall i :: 0 <= i < |ToLower(s[a..b])| ==> ToLower(s[a..b])[i] as int < 0x80
  {
    forall i | 0 <= i < b - a
      ensures ToLower(s[a..b])[i] as int < 0x80
    {
      assert IsAlnum(s[a + i]);
    }
  }

  lemma {:induction false} AsciiLength(s: string)
    requires forall i :: 0 <= i < |s| ==> s[i] as int < 0x80
    ensures |Utf8(s)| == |s|
    decreases |s|
  {
    if s != "" {
      AsciiLength(s[..|s| - 1]);
    }
  }
}
