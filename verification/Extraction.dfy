/** Reading files and extracting what the index keeps of them. */
module Extraction {
  import opened Prelude
  import opened Index
  import opened SegmentBuilder
  import opened DeltaSafety

  /** A regular file: its bytes and its modification time. */
  datatype File = File(content: seq<Byte>, mtime: nat)

  type FileSystem = map<Path, File>

  /** `process_file_for_delta` and its kin: None for what is not indexed. */
  type Extractor = (Path, File) -> Option<ProcessedFile>

  ghost predicate Sound(extract: Extractor) {
    forall p, f :: extract(p, f).Some? ==> WellFormedFile(extract(p, f).value) && extract(p, f).value.relPath == p
  }

  function ExtractAt(extract: Extractor, fs: FileSystem, p: Path): Option<ProcessedFile> {
    if p in fs then extract(p, fs[p]) else None
  }

  /** What can be indexed of a list of paths, read now. */
  function ExtractAll(extract: Extractor, fs: FileSystem, paths: seq<Path>): seq<ProcessedFile> {
    if paths == [] then []
    else
      ExtractAll(extract, fs, paths[..|paths| - 1]) +
      match ExtractAt(extract, fs, paths[|paths| - 1]) { case None => [] case Some(f) => [f] }
  }

  lemma {:induction false} ExtractedFiles(extract: Extractor, fs: FileSystem, paths: seq<Path>)
    requires Sound(extract)
    ensures AllWellFormed(ExtractAll(extract, fs, paths))
    ensures forall f :: f in ExtractAll(extract, fs, paths) <==>
            f.relPath in paths && ExtractAt(extract, fs, f.relPath) == Some(f)
    decreases |paths|
  {
    if paths != [] {
      var init, last := paths[..|paths| - 1], paths[|paths| - 1];
      assert paths == init + [last];
      ExtractedFiles(extract, fs, init);
    }
  }

  lemma {:induction false} ExtractedDistinct(extract: Extractor, fs: FileSystem, paths: seq<Path>)
    requires Sound(extract) && Distinct(paths)
    ensures DistinctPaths(ExtractAll(extract, fs, paths))
    decreases |paths|
  {
    if paths != [] {
      var init, last := paths[..|paths| - 1], paths[|paths| - 1];
      assert last !in init;
      ExtractedDistinct(extract, fs, init);
      ExtractedFiles(extract, fs, init);
      hide Sound;
      var files := ExtractAll(extract, fs, init);
      assert forall i :: 0 <= i < |files| ==> files[i] in files && files[i].relPath in init;
    }
  }

  /** What a search should know of a path. */
  function Expected(fs: FileSystem, p: Path, extract: Extractor): Option<Known>
    requires Sound(extract)
  {
    match ExtractAt(extract, fs, p)
    case None => None
    case Some(f) => Some(KnownOf(f))
  }

  /** The trigrams extraction takes from a path. */
  function Grams(fs: FileSystem, p: Path, extract: Extractor): set<Trigram> {
    match ExtractAt(extract, fs, p)
    case None => {}
    case Some(f) => Elements(f.trigrams)
  }

  /**
    The index knows a path as extraction sees it: its data, and its trigrams but
    for some of those in `gone`.
  */
  ghost predicate Right(idx: Index, fs: FileSystem, p: Path, extract: Extractor, gone: set<Trigram>)
    requires Sound(extract)
  {
    && Lookup(idx, p) == Expected(fs, p, extract)
    && Grams(fs, p, extract) - gone <= LiveTrigrams(idx, p) <= Grams(fs, p, extract)
  }

  lemma FileForAt(files: seq<ProcessedFile>, p: Path)
    ensures FileFor(files, |files|, p).Some? <==> exists f :: f in files && f.relPath == p
  {
    var r := FileFor(files, |files|, p);
    if f :| f in files && f.relPath == p {
      var i :| 0 <= i < |files| && files[i] == f;
    }
    if r.Some? {
      assert files[r.value] in files;
    }
  }

  /** The file extracted for a path, if there is one, is the path's as it is now. */
  lemma AddedFile(paths: seq<Path>, fs: FileSystem, extract: Extractor, p: Path)
    requires Sound(extract) && AllWellFormed(ExtractAll(extract, fs, paths))
    ensures var files := ExtractAll(extract, fs, paths);
            (match FileFor(files, |files|, p) { case None => None case Some(j) => Some(KnownOf(files[j])) })
            == if p in paths then Expected(fs, p, extract) else None
  {
    ExtractedFiles(extract, fs, paths);
    var files := ExtractAll(extract, fs, paths);
    hide ExtractAll, KnownOf, AllWellFormed;
    FileForAt(files, p);
    var at := FileFor(files, |files|, p);
    hide FileFor;
    if p in paths && ExtractAt(extract, fs, p).Some? {
      var f := ExtractAt(extract, fs, p).value;
      assert f.relPath == p && f in files;
    }
    if at.Some? {
      assert files[at.value] in files;
    }
  }

  /** Its trigrams too. */
  lemma AddedGrams(paths: seq<Path>, fs: FileSystem, extract: Extractor, p: Path)
    requires Sound(extract)
    ensures var files := ExtractAll(extract, fs, paths);
            (match FileFor(files, |files|, p) { case None => {} case Some(j) => Elements(files[j].trigrams) })
            == if p in paths then Grams(fs, p, extract) else {}
    ensures var files := ExtractAll(extract, fs, paths);
            FileFor(files, |files|, p).Some? ==> p in paths
  {
    ExtractedFiles(extract, fs, paths);
    var files := ExtractAll(extract, fs, paths);
    hide ExtractAll, Elements;
    FileForAt(files, p);
    var at := FileFor(files, |files|, p);
    hide FileFor;
    if p in paths && ExtractAt(extract, fs, p).Some? {
      var f := ExtractAt(extract, fs, p).value;
      assert f.relPath == p && f in files;
    }
    if at.Some? {
      assert files[at.value] in files;
    }
  }
}
