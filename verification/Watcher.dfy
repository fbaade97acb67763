/** Change kinds and the batch that accumulates them (src/server/watcher.rs:114-243). */
module Watcher {
  import opened Prelude
  import opened Index

  datatype ChangeKind = Created | Modified | Deleted | Renamed

  /** The three lists of a batch. */
  datatype Batch = Batch(created: seq<Path>, modified: seq<Path>, deleted: seq<Path>)

  const EMPTY_BATCH := Batch([], [], [])

  function Without(s: seq<Path>, p: Path): (r: seq<Path>)
    ensures forall q :: q in r <==> q in s && q != p
    ensures Distinct(s) ==> Distinct(r)
  {
    if s == [] then []
    else
      var init, last := s[..|s| - 1], s[|s| - 1];
      assert s == init + [last];
      var r := Without(init, p);
      assert Distinct(s) ==> Distinct(init) && last !in init;
      if last == p then r else r + [last]
  }

  function AddOnce(s: seq<Path>, p: Path): (r: seq<Path>)
    ensures forall q :: q in r <==> q in s || q == p
    ensures Distinct(s) ==> Distinct(r)
  {
    if p in s then s else s + [p]
  }

  /** One change entered into a batch. */
  function AddChange(b: Batch, p: Path, kind: ChangeKind): Batch {
    match kind
    case Created => b.(created := AddOnce(b.created, p))
    case Modified => if p in b.created then b else b.(modified := AddOnce(b.modified, p))
    case Deleted => Batch(Without(b.created, p), Without(b.modified, p), AddOnce(b.deleted, p))
    case Renamed => b.(deleted := AddOnce(b.deleted, p))
  }

  function AddChanges(b: Batch, ps: seq<Path>, kind: ChangeKind): Batch {
    if ps == [] then b else AddChange(AddChanges(b, ps[..|ps| - 1], kind), ps[|ps| - 1], kind)
  }

  function MergeBatches(b: Batch, other: Batch): Batch {
    AddChanges(AddChanges(AddChanges(b, other.created, Created), other.modified, Modified), other.deleted, Deleted)
  }

  lemma WithoutAbsent(s: seq<Path>, p: Path)
    requires p !in s
    ensures Without(s, p) == s
  {
    if s != [] {
      assert s == s[..|s| - 1] + [s[|s| - 1]];
      WithoutAbsent(s[..|s| - 1], p);
    }
  }

  class ChangeBatch {
    var created: seq<Path>
    var modified: seq<Path>
    var deleted: seq<Path>
    var createdSet: set<Path>
    var modifiedSet: set<Path>
    var deletedSet: set<Path>

    /** Each membership index says what its list holds, and no list repeats a path. */
    ghost predicate Valid()
      reads this
    {
      && createdSet == Elements(created) && modifiedSet == Elements(modified) && deletedSet == Elements(deleted)
      && Distinct(created) && Distinct(modified) && Distinct(deleted)
    }

    function Value(): Batch
      reads this
    {
      Batch(created, modified, deleted)
    }

    constructor ()
      ensures Valid() && Value() == EMPTY_BATCH
    {
      created, modified, deleted := [], [], [];
      createdSet, modifiedSet, deletedSet := {}, {}, {};
    }

    predicate IsEmpty()
      reads this
    {
      created == [] && modified == [] && deleted == []
    }

    method Add(path: Path, kind: ChangeKind)
      requires Valid()
      modifies this
      ensures Valid() && Value() == AddChange(old(Value()), path, kind)
    {
      match kind
      case Created =>
        if path !in createdSet {
          createdSet := createdSet + {path};
          created := created + [path];
        }
      case Modified =>
        if path !in createdSet && path !in modifiedSet {
          modifiedSet := modifiedSet + {path};
          modified := modified + [path];
        }
      case Deleted =>
        if path in createdSet {
          createdSet := createdSet - {path};
          created := Without(created, path);
        } else {
          WithoutAbsent(created, path);
        }
        if path in modifiedSet {
          modifiedSet := modifiedSet - {path};
          modified := Without(modified, path);
        } else {
          WithoutAbsent(modified, path);
        }
        if path !in deletedSet {
          deletedSet := deletedSet + {path};
          deleted := deleted + [path];
        }
      case Renamed =>
        if path !in deletedSet {
          deletedSet := deletedSet + {path};
          deleted := deleted + [path];
        }
    }

    method AddAll(paths: seq<Path>, kind: ChangeKind)
      requires Valid()
      modifies this
      ensures Valid() && Value() == AddChanges(old(Value()), paths, kind)
    {
      var i := 0;
      while i < |paths|
        invariant 0 <= i <= |paths|
        invariant Valid() && Value() == AddChanges(old(Value()), paths[..i], kind)
      {
        assert paths[..i + 1][..i] == paths[..i];
        Add(paths[i], kind);
        i := i + 1;
      }
      assert paths[..i] == paths;
    }

    method Merge(other: Batch)
      requires Valid()
      modifies this
      ensures Valid() && Value() == MergeBatches(old(Value()), other)
    {
      AddAll(other.created, Created);
      AddAll(other.modified, Modified);
      AddAll(other.deleted, Deleted);
    }
  }
}
