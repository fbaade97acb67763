/** Folding file events within a time window (src/server/debouncer.rs). Clocks are left out. */
module Debouncer {
  import opened Prelude
  import opened Index
  import opened Watcher

  /** The kind kept after `kind` arrives for a path already pending as `was`; None forgets the path. */
  function Fold(was: ChangeKind, kind: ChangeKind): Option<ChangeKind> {
    match (was, kind)
    case (Created, Modified) => Some(Created)
    case (Created, Deleted) => None
    case (Modified, Deleted) => Some(Deleted)
    case (Deleted, Created) => Some(Modified)
    case (Deleted, Modified) => Some(Modified)
    case (_, Renamed) => Some(Deleted)
    case (Renamed, _) => Some(kind)
    case (_, _) => Some(kind)
  }

  function AddEvent(pending: map<Path, ChangeKind>, p: Path, kind: ChangeKind): map<Path, ChangeKind> {
    if p !in pending then pending[p := kind]
    else
      match Fold(pending[p], kind)
      case None => pending - {p}
      case Some(k) => pending[p := k]
  }

  /** A batch that reports each pending path once, under its kind. */
  ghost predicate Reports(b: Batch, pending: map<Path, ChangeKind>) {
    && Distinct(b.created) && Distinct(b.modified) && Distinct(b.deleted)
    && (forall p :: p in b.created <==> p in pending && pending[p] == Created)
    && (forall p :: p in b.modified <==> p in pending && pending[p] == Modified)
    && (forall p :: p in b.deleted <==> p in pending && (pending[p] == Deleted || pending[p] == Renamed))
  }

  class EventDebouncer {
    var pending: map<Path, ChangeKind>
    var waiting: bool  // whether last_event is set

    constructor ()
      ensures pending == map[] && !waiting
    {
      pending := map[];
      waiting := false;
    }

    method AddFileEvent(path: Path, kind: ChangeKind)
      modifies this
      ensures pending == AddEvent(old(pending), path, kind) && waiting
    {
      waiting := true;
      if path in pending {
        var existing := pending[path];
        var newKind: ChangeKind;
        match (existing, kind) {
          case (Created, Modified) => newKind := Created;
          case (Created, Deleted) =>
            pending := pending - {path};
            return;
          case (Modified, Deleted) => newKind := Deleted;
          case (Deleted, Created) => newKind := Modified;
          case (Deleted, Modified) => newKind := Modified;
          case (_, Renamed) => newKind := Deleted;
          case (Renamed, _) => newKind := kind;
          case (_, _) => newKind := if existing == kind then existing else kind;
        }
        pending := pending[path := newKind];
      } else {
        pending := pending[path := kind];
      }
    }

    /** Drains the pending paths, in whatever order, into a batch. */
    method Flush() returns (batch: Option<Batch>)
      modifies this
      ensures pending == map[]
      ensures batch.None? <==> old(pending) == map[]
      ensures batch.Some? ==> Reports(batch.value, old(pending)) && !waiting
    {
      if pending == map[] {
        return None;
      }
      var acc := new ChangeBatch();
      ghost var all := pending;
      while pending != map[]
        invariant fresh(acc) && acc.Valid()
        invariant pending.Keys <= all.Keys && Reports(acc.Value(), all - pending.Keys)
        invariant forall p :: p in pending ==> pending[p] == all[p]
        modifies this, acc
        decreases |pending.Keys|
      {
        hide Reports;
        assert pending.Keys != {};
        var path :| path in pending;
        var kind := pending[path];
        ReportsOneMore(acc.Value(), all, pending.Keys, path);
        acc.Add(path, kind);
        assert (pending - {path}).Keys == pending.Keys - {path};
        pending := pending - {path};
      }
      assert all - pending.Keys == all;
      waiting := false;
      NotEmpty(acc.Value(), all);
      batch := if acc.IsEmpty() then None else Some(acc.Value());
    }
  }

  lemma ReportsOneMore(b: Batch, all: map<Path, ChangeKind>, todo: set<Path>, p: Path)
    requires p in todo && todo <= all.Keys && Reports(b, all - todo)
    ensures Reports(AddChange(b, p, all[p]), all - (todo - {p}))
  {
    var done := all - todo;
    assert all - (todo - {p}) == done[p := all[p]];
    assert p !in b.created && p !in b.modified && p !in b.deleted;
    WithoutAbsent(b.created, p);
    WithoutAbsent(b.modified, p);
    ReportsNew(b, done, p, all[p]);
    hide Without, Reports;
    assert AddChange(b, p, all[p]) == AddNew(b, p, all[p]);
  }

  /** A path not in the batch yet is appended to one list. */
  function AddNew(b: Batch, p: Path, kind: ChangeKind): Batch {
    match kind
    case Created => b.(created := b.created + [p])
    case Modified => b.(modified := b.modified + [p])
    case _ => b.(deleted := b.deleted + [p])
  }

  lemma ReportsNew(b: Batch, done: map<Path, ChangeKind>, p: Path, kind: ChangeKind)
    requires Reports(b, done) && p !in done
    ensures Reports(AddNew(b, p, kind), done[p := kind])
  {
    assert p !in b.created && p !in b.modified && p !in b.deleted;
  }

  lemma NotEmpty(b: Batch, pending: map<Path, ChangeKind>)
    requires Reports(b, pending) && pending != map[]
    ensures b != EMPTY_BATCH
  {
    assert pending.Keys != {};
    var p :| p in pending;
    assert p in b.created || p in b.modified || p in b.deleted;
  }
}
