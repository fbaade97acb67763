/**
  The watch pipeline as one system: file events, the debouncer's window, the
  queue of batches, the batch that accumulates, flushes that read the files as
  they are by then, and compactions. Every run of it is considered, with the
  stages interleaved in any way.
*/
module WatchPipeline {
  import opened Prelude
  import opened Index
  import opened SegmentBuilder
  import opened DeltaSafety
  import opened Watcher
  import opened Debouncer
  import opened Daemon
  import opened Extraction
  import FullBuild
  import Build
  import Compact
  import CompactSafety

  datatype Event = Event(path: Path, kind: ChangeKind)

  datatype State = State(
    fs: FileSystem,
    events: seq<Event>,               // reported by the system, not yet seen by the debouncer
    debounce: map<Path, ChangeKind>,  // the debouncer's window
    queue: seq<Batch>,                // sent by the watcher thread, not yet accumulated
    pending: Option<Batch>,           // accumulated, not yet flushed
    index: Index,
    stripped: set<Trigram>)           // what compactions have taken out of the postings so far

  datatype Step =
    | Create(path: Path, file: File)
    | Modify(path: Path, file: File)
    | Delete(path: Path)
    | Deliver
    | Skip
    | Debounce(batch: Batch)
    | Accumulate
    | Flush
    | Drop
    | Rebuild(built: Index)
    | CompactTo(compacted: Index)

  /** What the daemon is configured with. */
  datatype Config = Config(extract: Extractor, rebuildThresholdPercent: nat)

  ghost predicate Next(s: State, step: Step, t: State, cfg: Config)
    requires Sound(cfg.extract)
  {
    match step
    case Create(p, f) =>
      p !in s.fs && t == s.(fs := s.fs[p := f], events := s.events + [Event(p, Created)])
    case Modify(p, f) =>
      p in s.fs && t == s.(fs := s.fs[p := f], events := s.events + [Event(p, Modified)])
    case Delete(p) =>
      p in s.fs && t == s.(fs := s.fs - {p}, events := s.events + [Event(p, Deleted)])
    case Deliver =>
      s.events != []
        && t == s.(events := s.events[1..], debounce := AddEvent(s.debounce, s.events[0].path, s.events[0].kind))
    case Skip =>
      // the path is no file by now, so the event is passed over
      s.events != [] && s.events[0].path !in s.fs && t == s.(events := s.events[1..])
    case Debounce(b) =>
      s.debounce != map[] && Reports(b, s.debounce) && t == s.(debounce := map[], queue := s.queue + [b])
    case Accumulate =>
      s.queue != [] && t == s.(queue := s.queue[1..],
                               pending := Some(if s.pending.Some? then MergeBatches(s.pending.value, s.queue[0])
                                 else s.queue[0]))
    case Flush =>
      && s.pending.Some? && !Drops(s.index, s.pending.value)
      && !Rebuilds(s.index, s.pending.value, cfg.rebuildThresholdPercent)
      && (ExtractedFiles(cfg.extract, s.fs, s.pending.value.created + s.pending.value.modified);
          t == s.(pending := None, index := Applied(s.index, s.pending.value, s.fs, cfg.extract)))
    case Drop =>
      s.pending.Some? && Drops(s.index, s.pending.value) && t == s.(pending := None)
    case Rebuild(built) =>
      // the watcher thread is stopped with what it holds; batches it has sent stay
      && s.pending.Some? && Rebuilds(s.index, s.pending.value, cfg.rebuildThresholdPercent)
      && FullyBuilt(built, s.fs, cfg.extract)
      && t == s.(events := [], debounce := map[], pending := None, index := built, stripped := {})
    case CompactTo(c) =>
      Compact.IsCompaction(s.index, c) && t == s.(index := c, stripped := s.stripped + c.stopGrams)
  }

  /** What a full build makes of the files, in chunks of any size. */
  ghost predicate FullyBuilt(built: Index, fs: FileSystem, extract: Extractor) {
    exists chunks, stop, rejected ::
      FullBuild.ChunksHold(chunks, fs, extract)
      && built == FullBuild.Rebased(FullBuild.AfterChunks(chunks, |chunks|), stop, rejected)
  }

  // ------------------------------------------------- what changes say of a path

  /** Existence of a file after a change; None when the change is impossible. */
  function Do(present: bool, k: ChangeKind): Option<bool> {
    match k
    case Created => if present then None else Some(true)
    case Modified => if present then Some(true) else None
    case Deleted => if present then Some(false) else None
    case Renamed => None
  }

  function Exec(e: bool, ops: seq<ChangeKind>): Option<bool>
    decreases |ops|
  {
    if ops == [] then Some(e)
    else match Do(e, ops[0]) { case None => None case Some(x) => Exec(x, ops[1..]) }
  }

  lemma {:induction false} ExecConcat(e: bool, a: seq<ChangeKind>, b: seq<ChangeKind>)
    ensures Exec(e, a + b) == match Exec(e, a) { case None => None case Some(x) => Exec(x, b) }
    decreases |a|
  {
    if a == [] {
      assert a + b == b;
    } else {
      assert (a + b)[1..] == a[1..] + b;
      if Do(e, a[0]).Some? { ExecConcat(Do(e, a[0]).value, a[1..], b); }
    }
  }

  function EventOps(events: seq<Event>, p: Path): seq<ChangeKind> {
    if events == [] then []
    else (if events[0].path == p then [events[0].kind] else []) + EventOps(events[1..], p)
  }

  lemma {:induction false} EventOpsSnoc(events: seq<Event>, e: Event, p: Path)
    ensures EventOps(events + [e], p) == EventOps(events, p) + if e.path == p then [e.kind] else []
  {
    if events != [] {
      var rest := EventOps(events[1..], p);
      assert (events + [e])[1..] == events[1..] + [e];
      EventOpsSnoc(events[1..], e, p);
      var now := if events[0].path == p then [events[0].kind] else [];
      var last := if e.path == p then [e.kind] else [];
      assert now + (rest + last) == (now + rest) + last;
    }
  }

  function WindowOps(debounce: map<Path, ChangeKind>, p: Path): seq<ChangeKind> {
    if p in debounce then [debounce[p]] else []
  }

  /** What a freshly flushed batch says of a path. */
  function BatchOps(b: Batch, p: Path): seq<ChangeKind> {
    if p in b.created then [Created]
    else if p in b.modified then [Modified]
    else if p in b.deleted then [Deleted]
    else []
  }

  function QueueOps(queue: seq<Batch>, p: Path): seq<ChangeKind> {
    if queue == [] then [] else BatchOps(queue[0], p) + QueueOps(queue[1..], p)
  }

  lemma {:induction false} QueueOpsSnoc(queue: seq<Batch>, b: Batch, p: Path)
    ensures QueueOps(queue + [b], p) == QueueOps(queue, p) + BatchOps(b, p)
  {
    if queue == [] {
      assert [b][1..] == [];
    } else {
      assert (queue + [b])[1..] == queue[1..] + [b];
      QueueOpsSnoc(queue[1..], b, p);
    }
  }

  /** Everything not yet accumulated, oldest first. */
  function Ahead(s: State, p: Path): seq<ChangeKind> {
    QueueOps(s.queue, p) + WindowOps(s.debounce, p) + EventOps(s.events, p)
  }

  /** The lists of a batch a path is in. */
  datatype Marks = Marks(created: bool, modified: bool, deleted: bool)

  const NO_MARKS := Marks(false, false, false)

  function MarksOf(b: Batch, p: Path): Marks {
    Marks(p in b.created, p in b.modified, p in b.deleted)
  }

  function PendingMarks(pending: Option<Batch>, p: Path): Marks {
    match pending { case None => NO_MARKS case Some(b) => MarksOf(b, p) }
  }

  /** Existence after the changes the marks stand for; None for marks that cannot come up. */
  function AfterMarks(m: Marks, e: bool): Option<bool> {
    if m.modified && (m.created || m.deleted) then None
    else if m.created then if e && !m.deleted then None else Some(true)
    else if m.modified then if e then Some(true) else None
    else if m.deleted then Some(false)
    else Some(e)
  }

  /**
    Path by path: `base` says whether the file existed in the history the index
    has caught up with; replaying what is pending and what is ahead leads to the
    file system of now; the index never knows a path that did not exist; and a
    path nothing is in flight for is known as it is.
  */
  ghost predicate PathOk(s: State, base: bool, p: Path, cfg: Config)
    requires Sound(cfg.extract)
  {
    var after := AfterMarks(PendingMarks(s.pending, p), base);
    && after.Some?
    && Exec(after.value, Ahead(s, p)) == Some(p in s.fs)
    && (!base ==> LiveDoc(s.index, p).None?)
    && (PendingMarks(s.pending, p) == NO_MARKS && Ahead(s, p) == [] ==>
        Right(s.index, s.fs, p, cfg.extract, s.stripped))
  }

  ghost predicate Tidy(b: Batch) {
    Distinct(b.created) && Distinct(b.modified) && Distinct(b.deleted)
  }

  /** A batch straight from the debouncer: every path in at most one list. */
  ghost predicate Clean(b: Batch) {
    && Tidy(b)
    && (forall p :: p in b.created ==> p !in b.modified && p !in b.deleted)
    && (forall p :: p in b.modified ==> p !in b.deleted)
  }

  // -------------------------------------------------------------- file events

  lemma FsStep(s: State, t: State, base: bool, p: Path, k: ChangeKind, q: Path, cfg: Config)
    requires Sound(cfg.extract) && PathOk(s, base, q, cfg)
    requires t.events == s.events + [Event(p, k)] && t.debounce == s.debounce && t.queue == s.queue
    requires t.pending == s.pending && t.index == s.index && t.stripped == s.stripped
    requires Do(p in s.fs, k) == Some(p in t.fs)
    requires q != p ==> (q in t.fs <==> q in s.fs) && (q in s.fs ==> t.fs[q] == s.fs[q])
    ensures PathOk(t, base, q, cfg)
  {
    EventOpsSnoc(s.events, Event(p, k), q);
    var added := if q == p then [k] else [];
    assert Ahead(t, q) == Ahead(s, q) + added;
    var after := AfterMarks(PendingMarks(s.pending, q), base).value;
    ExecConcat(after, Ahead(s, q), added);
    if q == p {
      assert [k][1..] == [];
      assert Exec(p in s.fs, [k]) == Do(p in s.fs, k);
    }
    hide Lookup, LiveDoc, Ahead;
  }

  // -------------------------------------------------------------- the debouncer

  /** One event folded into the window changes nothing a replay can see. */
  lemma FoldPreserves(e: bool, d: map<Path, ChangeKind>, p: Path, k: ChangeKind, q: Path, x: bool)
    requires Exec(e, WindowOps(d, q) + if q == p then [k] else []) == Some(x)
    ensures Exec(e, WindowOps(AddEvent(d, p, k), q)) == Some(x)
    ensures WindowOps(AddEvent(d, p, k), q) == [] && q == p ==> !e
  {
    if q == p {
      ExecConcat(e, WindowOps(d, q), [k]);
      assert [k][1..] == [];
      if p in d {
        assert [d[p]][1..] == [];
      }
    } else {
      assert WindowOps(d, q) + [] == WindowOps(d, q);
    }
  }

  /** Swapping the middle of a replay for an equivalent one. */
  lemma ReplayMiddle(e: bool, a: seq<ChangeKind>, w: seq<ChangeKind>, v: seq<ChangeKind>, r: seq<ChangeKind>)
    requires Exec(e, a).Some? ==> Exec(Exec(e, a).value, w) == Exec(Exec(e, a).value, v)
    ensures Exec(e, a + (v + r)) == Exec(e, a + (w + r))
  {
    hide Exec;
    ExecConcat(e, a, w + r);
    ExecConcat(e, a, v + r);
    if Exec(e, a).Some? {
      ExecConcat(Exec(e, a).value, w, r);
      ExecConcat(Exec(e, a).value, v, r);
    }
  }

  lemma ReplayPrefix(e: bool, a: seq<ChangeKind>, w: seq<ChangeKind>, r: seq<ChangeKind>)
    requires Exec(e, a + (w + r)).Some?
    ensures Exec(e, a).Some? && Exec(Exec(e, a).value, w).Some?
  {
    hide Exec;
    ExecConcat(e, a, w + r);
    ExecConcat(Exec(e, a).value, w, r);
  }

  lemma DeliverSplit(s: State, t: State, q: Path, cfg: Config)
    requires Sound(cfg.extract) && Next(s, Deliver, t, cfg)
    ensures var ev := s.events[0];
            var now := if q == ev.path then [ev.kind] else [];
            && Ahead(s, q) == QueueOps(s.queue, q) + ((WindowOps(s.debounce, q) + now) + EventOps(s.events[1..], q))
            && Ahead(t, q) == QueueOps(s.queue, q) + (WindowOps(t.debounce, q) + EventOps(s.events[1..], q))
  {
    hide QueueOps, WindowOps, AddEvent;
  }

  lemma DeliverAhead(s: State, t: State, base: bool, q: Path, cfg: Config)
    requires Sound(cfg.extract) && Next(s, Deliver, t, cfg)
    requires Exec(base, Ahead(s, q)).Some?
    ensures Exec(base, Ahead(t, q)) == Exec(base, Ahead(s, q))
  {
    hide Exec, AddEvent, Ahead, QueueOps, EventOps, WindowOps, Sound;
    var ev := s.events[0];
    var now := if q == ev.path then [ev.kind] else [];
    var a, w, r := QueueOps(s.queue, q), WindowOps(s.debounce, q), EventOps(s.events[1..], q);
    DeliverSplit(s, t, q, cfg);
    ReplayPrefix(base, a, w + now, r);
    FoldPreserves(Exec(base, a).value, s.debounce, ev.path, ev.kind, q, Exec(Exec(base, a).value, w + now).value);
    ReplayMiddle(base, a, w + now, WindowOps(t.debounce, q), r);
  }

  lemma DeliverStep(s: State, t: State, base: bool, q: Path, cfg: Config)
    requires Sound(cfg.extract) && PathOk(s, base, q, cfg) && Next(s, Deliver, t, cfg)
    ensures PathOk(t, base, q, cfg)
  {
    hide Exec, AddEvent, Lookup, LiveDoc, Ahead;
    DeliverAhead(s, t, AfterMarks(PendingMarks(s.pending, q), base).value, q, cfg);
    if PendingMarks(s.pending, q) == NO_MARKS && Ahead(t, q) == [] {
      QuietAfterDeliver(s, t, base, q, cfg);
    }
  }

  /** A path can fall quiet in the window only by being created and deleted again. */
  lemma QuietAfterDeliver(s: State, t: State, base: bool, q: Path, cfg: Config)
    requires Sound(cfg.extract) && PathOk(s, base, q, cfg) && Next(s, Deliver, t, cfg)
    requires PendingMarks(s.pending, q) == NO_MARKS && Ahead(t, q) == []
    ensures Right(t.index, t.fs, q, cfg.extract, t.stripped)
  {
    var ev := s.events[0];
    if q != ev.path {
      assert Ahead(s, q) == [];
    } else {
      var w := WindowOps(s.debounce, q);
      assert QueueOps(s.queue, q) == [] && EventOps(s.events[1..], q) == [];
      assert Ahead(s, q) == w + [ev.kind];
      FoldPreserves(base, s.debounce, ev.path, ev.kind, q, q in s.fs);
      assert Exec(base, []) == Some(base);
    }
  }

  lemma ReportsOps(b: Batch, d: map<Path, ChangeKind>, p: Path)
    requires Reports(b, d) && (p in d ==> d[p] != Renamed)
    ensures BatchOps(b, p) == WindowOps(d, p)
  {
  }

  lemma NoRename(e: bool, a: seq<ChangeKind>, k: ChangeKind, r: seq<ChangeKind>)
    requires Exec(e, a + ([k] + r)).Some?
    ensures k != Renamed
  {
    ExecConcat(e, a, [k] + r);
  }

  lemma DebounceAhead(s: State, b: Batch, t: State, base: bool, q: Path, cfg: Config)
    requires Sound(cfg.extract) && Next(s, Debounce(b), t, cfg)
    requires Exec(base, Ahead(s, q)).Some?
    ensures Ahead(t, q) == Ahead(s, q)
  {
    hide Exec, Reports;
    var a, w, r := QueueOps(s.queue, q), WindowOps(s.debounce, q), EventOps(s.events, q);
    assert Ahead(s, q) == a + (w + r);
    if q in s.debounce {
      NoRename(base, a, s.debounce[q], r);
    }
    ReportsOps(b, s.debounce, q);
    QueueOpsSnoc(s.queue, b, q);
    assert Ahead(t, q) == (a + w) + [] + r;
  }

  lemma DebounceStep(s: State, b: Batch, t: State, base: bool, q: Path, cfg: Config)
    requires Sound(cfg.extract) && PathOk(s, base, q, cfg) && Next(s, Debounce(b), t, cfg)
    ensures PathOk(t, base, q, cfg)
  {
    hide Exec, Lookup, LiveDoc, Ahead, Reports;
    DebounceAhead(s, b, t, AfterMarks(PendingMarks(s.pending, q), base).value, q, cfg);
  }

  // ------------------------------------------------------- the accumulated batch

  /** The marks of a path after one more change. */
  function AddMark(m: Marks, k: ChangeKind): Marks {
    match k
    case Created => m.(created := true)
    case Modified => if m.created then m else m.(modified := true)
    case Deleted => Marks(false, false, true)
    case Renamed => m.(deleted := true)
  }

  lemma MarksAfterChange(b: Batch, q: Path, k: ChangeKind, p: Path)
    ensures MarksOf(AddChange(b, q, k), p) == if p == q then AddMark(MarksOf(b, p), k) else MarksOf(b, p)
    ensures Tidy(b) ==> Tidy(AddChange(b, q, k))
  {
  }

  lemma {:induction false} MarksAfterChanges(b: Batch, qs: seq<Path>, k: ChangeKind, p: Path)
    ensures MarksOf(AddChanges(b, qs, k), p) == if p in qs then AddMark(MarksOf(b, p), k) else MarksOf(b, p)
    ensures Tidy(b) ==> Tidy(AddChanges(b, qs, k))
    decreases |qs|
  {
    if qs != [] {
      var init, last := qs[..|qs| - 1], qs[|qs| - 1];
      assert qs == init + [last];
      MarksAfterChanges(b, init, k, p);
      MarksAfterChange(AddChanges(b, init, k), last, k, p);
      hide AddChange, Tidy;
    }
  }

  function AddMarks(m: Marks, ops: seq<ChangeKind>): Marks {
    if ops == [] then m else AddMark(m, ops[0])
  }

  lemma MarksAfterMerge(b: Batch, other: Batch, p: Path)
    requires Clean(other)
    ensures MarksOf(MergeBatches(b, other), p) == AddMarks(MarksOf(b, p), BatchOps(other, p))
    ensures Tidy(b) ==> Tidy(MergeBatches(b, other))
  {
    hide AddChanges, Tidy;
    var b1 := AddChanges(b, other.created, Created);
    var b2 := AddChanges(b1, other.modified, Modified);
    MarksAfterChanges(b, other.created, Created, p);
    MarksAfterChanges(b1, other.modified, Modified, p);
    MarksAfterChanges(b2, other.deleted, Deleted, p);
  }

  /** A change entered into the marks is the change made. */
  lemma MarkIsDo(m: Marks, k: ChangeKind, e: bool)
    requires AfterMarks(m, e).Some? && Do(AfterMarks(m, e).value, k).Some?
    ensures AfterMarks(AddMark(m, k), e) == Do(AfterMarks(m, e).value, k)
  {
  }

  lemma FirstMarks(b: Batch, p: Path)
    requires Clean(b)
    ensures MarksOf(b, p) == AddMarks(NO_MARKS, BatchOps(b, p))
  {
  }

  lemma AccumulateMarks(s: State, t: State, q: Path, cfg: Config)
    requires Sound(cfg.extract) && Next(s, Accumulate, t, cfg) && Clean(s.queue[0])
    ensures PendingMarks(t.pending, q) == AddMarks(PendingMarks(s.pending, q), BatchOps(s.queue[0], q))
    ensures s.pending.Some? && Tidy(s.pending.value) ==> Tidy(t.pending.value)
  {
    hide MergeBatches, Tidy, MarksOf, AddMarks, BatchOps;
    if s.pending.Some? {
      MarksAfterMerge(s.pending.value, s.queue[0], q);
    } else {
      FirstMarks(s.queue[0], q);
    }
  }

  /** Replaying the first change of what is ahead is entering it into the marks. */
  lemma ReplayMark(m: Marks, base: bool, ops: seq<ChangeKind>, rest: seq<ChangeKind>)
    requires |ops| <= 1 && AfterMarks(m, base).Some? && Exec(AfterMarks(m, base).value, ops + rest).Some?
    ensures AfterMarks(AddMarks(m, ops), base).Some?
    ensures Exec(AfterMarks(AddMarks(m, ops), base).value, rest) == Exec(AfterMarks(m, base).value, ops + rest)
  {
    if ops == [] {
      assert ops + rest == rest;
    } else {
      assert (ops + rest)[1..] == rest;
      MarkIsDo(m, ops[0], base);
      hide AfterMarks;
    }
  }

  lemma AddedMarksShow(m: Marks, ops: seq<ChangeKind>)
    requires AddMarks(m, ops) == NO_MARKS
    ensures ops == []
  {
  }

  lemma AccumulateStep(s: State, t: State, base: bool, q: Path, cfg: Config)
    requires Sound(cfg.extract) && PathOk(s, base, q, cfg) && Next(s, Accumulate, t, cfg)
    requires Clean(s.queue[0])
    ensures PathOk(t, base, q, cfg)
  {
    hide Lookup, LiveDoc, Clean, Tidy, MergeBatches, Exec, AfterMarks, AddMarks, BatchOps, Sound, PendingMarks;
    AccumulateMarks(s, t, q, cfg);
    var m, ops := PendingMarks(s.pending, q), BatchOps(s.queue[0], q);
    assert Ahead(s, q) == ops + Ahead(t, q);
    hide Ahead;
    BatchOpsShort(s.queue[0], q);
    ReplayMark(m, base, ops, Ahead(t, q));
    if AddMarks(m, ops) == NO_MARKS {
      AddedMarksShow(m, ops);
      assert ops + Ahead(t, q) == Ahead(t, q);
      assert m == NO_MARKS by { NothingAdded(m); }
    }
  }

  lemma BatchOpsShort(b: Batch, p: Path)
    ensures |BatchOps(b, p)| <= 1
  {
  }

  lemma NothingAdded(m: Marks)
    ensures AddMarks(m, []) == m
  {
  }

  // ------------------------------------------------------------------ flushing

  /** What history the index has caught up with after a flush. */
  ghost function Advance(b: Batch, base: iset<Path>): iset<Path> {
    iset p | AfterMarks(MarksOf(b, p), p in base) == Some(true)
  }

  lemma AdvanceAt(b: Batch, base: iset<Path>, p: Path)
    ensures p in Advance(b, base) <==> AfterMarks(MarksOf(b, p), p in base) == Some(true)
  {
  }

  /** What the marks of every path, together, say of a batch and an index. */
  ghost predicate Consistent(idx: Index, b: Batch, base: iset<Path>) {
    forall p :: AfterMarks(MarksOf(b, p), p in base).Some? && (p !in base ==> LiveDoc(idx, p).None?)
  }

  lemma FlushSafe(idx: Index, b: Batch, base: iset<Path>, fs: FileSystem, extract: Extractor)
    requires Sound(extract) && Tidy(b) && Consistent(idx, b, base)
    ensures var files := ExtractAll(extract, fs, b.created + b.modified);
            && AllWellFormed(files) && DistinctPaths(files)
            && BuriesWhatItAdds(idx, b.deleted + b.modified, files)
  {
    var paths := b.created + b.modified;
    forall i, j | 0 <= i < j < |paths|
      ensures paths[i] != paths[j]
    {
      assert AfterMarks(MarksOf(b, paths[i]), paths[i] in base).Some?;
    }
    hide LiveDoc, Tidy;
    ExtractedFiles(extract, fs, paths);
    ExtractedDistinct(extract, fs, paths);
    hide Sound;
    var files := ExtractAll(extract, fs, paths);
    forall i | 0 <= i < |files| && LiveDoc(idx, files[i].relPath).Some?
      ensures files[i].relPath in b.deleted + b.modified
    {
      assert files[i] in files;
      assert AfterMarks(MarksOf(b, files[i].relPath), files[i].relPath in base).Some?;
    }
  }

  /** A path the batch adds is known as it is now; one it only deletes is forgotten; others stay. */
  lemma FlushMeaning(idx: Index, b: Batch, base: iset<Path>, fs: FileSystem, extract: Extractor, p: Path)
    requires Valid(idx) && Sound(extract) && Tidy(b) && Consistent(idx, b, base)
    requires AllWellFormed(ExtractAll(extract, fs, b.created + b.modified))
    ensures Lookup(Applied(idx, b, fs, extract), p) ==
            if p in b.created || p in b.modified then Expected(fs, p, extract)
            else if p in b.deleted then None
            else Lookup(idx, p)
    ensures LiveTrigrams(Applied(idx, b, fs, extract), p) ==
            if p in b.created || p in b.modified then Grams(fs, p, extract)
            else if p in b.deleted then {}
            else LiveTrigrams(idx, p)
  {
    hide Updated, AllWellFormed, Lookup, LiveTrigrams, Grams, DistinctPaths, BuriesWhatItAdds, Valid, Expected,
        ExtractAll, FileFor, KnownOf, Sound, Tidy, LiveDoc;
    FlushSafe(idx, b, base, fs, extract);
    DeltaMeaning(idx, b.deleted + b.modified, ExtractAll(extract, fs, b.created + b.modified), p);
    DeltaGrams(idx, b.deleted + b.modified, ExtractAll(extract, fs, b.created + b.modified), p);
    AddedFile(b.created + b.modified, fs, extract, p);
    AddedGrams(b.created + b.modified, fs, extract, p);
    if p in b.created && p !in b.deleted + b.modified {
      assert AfterMarks(MarksOf(b, p), p in base).Some?;
      UnknownPath(idx, p);
    }
    if p in b.created || p in b.modified {
      NotThere(fs, extract, p);
    }
  }

  lemma UnknownPath(idx: Index, p: Path)
    ensures Lookup(idx, p).None? <==> LiveDoc(idx, p).None?
    ensures LiveDoc(idx, p).None? ==> LiveTrigrams(idx, p) == {}
  {
  }

  lemma NotThere(fs: FileSystem, extract: Extractor, p: Path)
    requires Sound(extract)
    ensures Expected(fs, p, extract).None? ==> Grams(fs, p, extract) == {}
  {
  }

  ghost predicate AllPathsOk(s: State, base: iset<Path>, cfg: Config)
    requires Sound(cfg.extract)
  {
    forall p :: PathOk(s, p in base, p, cfg)
  }

  lemma MakesConsistent(s: State, base: iset<Path>, cfg: Config)
    requires Sound(cfg.extract) && AllPathsOk(s, base, cfg) && s.pending.Some?
    ensures Consistent(s.index, s.pending.value, base)
  {
    forall p
      ensures AfterMarks(MarksOf(s.pending.value, p), p in base).Some? && (p !in base ==> LiveDoc(s.index, p).None?)
    {
      assert PathOk(s, p in base, p, cfg);
    }
  }

  /** What a flush does to one path, given what it does to the lookups. */
  lemma FlushPath(s: State, t: State, base: bool, p: Path, cfg: Config)
    requires Sound(cfg.extract) && PathOk(s, base, p, cfg) && s.pending.Some?
    requires t == s.(pending := None, index := t.index)
    requires var b := s.pending.value;
             Lookup(t.index, p) ==
             if p in b.created || p in b.modified then Expected(s.fs, p, cfg.extract)
             else if p in b.deleted then None
             else Lookup(s.index, p)
    requires var b := s.pending.value;
             LiveTrigrams(t.index, p) ==
             if p in b.created || p in b.modified then Grams(s.fs, p, cfg.extract)
             else if p in b.deleted then {}
             else LiveTrigrams(s.index, p)
    ensures PathOk(t, AfterMarks(MarksOf(s.pending.value, p), base) == Some(true), p, cfg)
  {
    hide Lookup, LiveDoc, Ahead, Sound, LiveTrigrams;
    UnknownPath(s.index, p);
    UnknownPath(t.index, p);
    NotThere(s.fs, cfg.extract, p);
    var after := AfterMarks(MarksOf(s.pending.value, p), base).value;
    assert Ahead(t, p) == Ahead(s, p) by { SameAhead(s, t, p); }
    assert Ahead(s, p) == [] ==> after == (p in s.fs);
  }

  lemma SameAhead(s: State, t: State, p: Path)
    requires s.queue == t.queue && s.debounce == t.debounce && s.events == t.events
    ensures Ahead(s, p) == Ahead(t, p)
  {
  }

  lemma FlushStep(s: State, t: State, base: iset<Path>, cfg: Config)
    requires Sound(cfg.extract) && AllPathsOk(s, base, cfg) && Valid(s.index) && Next(s, Flush, t, cfg)
    requires Tidy(s.pending.value)
    ensures AllPathsOk(t, Advance(s.pending.value, base), cfg) && Valid(t.index)
  {
    hide PathOk, Lookup, LiveTrigrams, Grams, Valid, Tidy, Sound, ExtractAll, Updated, AllWellFormed, Consistent,
        Advance, AfterMarks, Expected;
    var b := s.pending.value;
    MakesConsistent(s, base, cfg);
    FlushSafe(s.index, b, base, s.fs, cfg.extract);
    DeltaKeepsValid(s.index, b.deleted + b.modified, ExtractAll(cfg.extract, s.fs, b.created + b.modified));
    forall p
      ensures PathOk(t, p in Advance(b, base), p, cfg)
    {
      FlushMeaning(s.index, b, base, s.fs, cfg.extract, p);
      assert PathOk(s, p in base, p, cfg);
      FlushPath(s, t, p in base, p, cfg);
      AdvanceAt(b, base, p);
    }
  }

  // ---------------------------------------------------------------- compaction

  lemma CompactPath(s: State, c: Index, t: State, base: bool, p: Path, cfg: Config)
    requires Sound(cfg.extract) && PathOk(s, base, p, cfg) && Valid(s.index) && Next(s, CompactTo(c), t, cfg)
    ensures PathOk(t, base, p, cfg)
  {
    hide Valid, Lookup, LiveDoc, Compact.IsCompaction, Ahead, Sound, Exec, AfterMarks, TrigramsOf, Grams;
    CompactSafety.CompactionPreserves(s.index, c, p);
    SameAhead(s, t, p);
  }

  // -------------------------------------------------- steps that may lose something

  /** The rest of a replay without its first change, when the file is gone in the end. */
  lemma OneLess(x: bool, k: ChangeKind, rest: seq<ChangeKind>)
    requires Exec(x, [k] + rest) == Some(false)
    ensures Exec(x, rest) == Some(false) <==> k == Modified
  {
    assert ([k] + rest)[1..] == rest;
  }

  lemma SkipSplit(s: State, t: State, p: Path, cfg: Config)
    requires Sound(cfg.extract) && Next(s, Skip, t, cfg)
    ensures var a, rest := QueueOps(s.queue, p) + WindowOps(s.debounce, p), EventOps(s.events[1..], p);
            && Ahead(t, p) == a + rest
            && Ahead(s, p) == a + ((if s.events[0].path == p then [s.events[0].kind] else []) + rest)
  {
    hide QueueOps, WindowOps;
  }

  lemma SkipPath(s: State, t: State, base: bool, p: Path, cfg: Config)
    requires Sound(cfg.extract) && PathOk(s, base, p, cfg) && Next(s, Skip, t, cfg)
    ensures PathOk(t, base, p, cfg) <==> (s.events[0].path == p ==> s.events[0].kind == Modified)
  {
    hide Right, LiveDoc, AfterMarks, Sound, Ahead;
    var after := AfterMarks(PendingMarks(s.pending, p), base).value;
    var a, rest := QueueOps(s.queue, p) + WindowOps(s.debounce, p), EventOps(s.events[1..], p);
    var now := if s.events[0].path == p then [s.events[0].kind] else [];
    SkipSplit(s, t, p, cfg);
    ExecConcat(after, a, now + rest);
    ExecConcat(after, a, rest);
    if s.events[0].path == p {
      OneLess(Exec(after, a).value, s.events[0].kind, rest);
      if Ahead(t, p) == [] {
        EmptyParts(a, rest);
        NothingModified(after, a, rest);
      }
    } else {
      assert now + rest == rest;
    }
    hide Exec, QueueOps, WindowOps, EventOps;
  }

  lemma EmptyParts(a: seq<ChangeKind>, rest: seq<ChangeKind>)
    requires a + rest == []
    ensures a == [] && rest == []
  {
  }

  lemma NothingModified(x: bool, a: seq<ChangeKind>, rest: seq<ChangeKind>)
    requires a == [] && rest == []
    ensures Exec(x, a) == Some(x) && Exec(x, rest) == Some(x)
    ensures Exec(x, [Modified] + rest) != Some(false)
  {
    assert [Modified] + rest == [Modified];
    assert [Modified][1..] == [];
  }

  /**
    An event passed over keeps the invariant if and only if it reports a
    modification: deletions and creations are missed.
  */
  lemma SkipKeepsIff(s: State, t: State, base: iset<Path>, cfg: Config)
    requires Sound(cfg.extract) && AllPathsOk(s, base, cfg) && Next(s, Skip, t, cfg)
    ensures AllPathsOk(t, base, cfg) <==> s.events[0].kind == Modified
  {
    hide PathOk, Sound;
    assert s.events != [];
    hide Next;
    assert PathOk(t, s.events[0].path in base, s.events[0].path, cfg) <==> s.events[0].kind == Modified by {
      SkipPath(s, t, s.events[0].path in base, s.events[0].path, cfg);
    }
    forall p
      ensures PathOk(t, p in base, p, cfg) <==> (s.events[0].path == p ==> s.events[0].kind == Modified)
    {
      assert PathOk(s, p in base, p, cfg);
      SkipPath(s, t, p in base, p, cfg);
    }
  }

  /** Whether a file of the batch is there to be indexed with no further change of it on the way. */
  ghost predicate Awaited(s: State, p: Path, cfg: Config) {
    && s.pending.Some? && (p in s.pending.value.created || p in s.pending.value.modified)
    && Ahead(s, p) == [] && ExtractAt(cfg.extract, s.fs, p).Some?
  }

  lemma DropPath(s: State, t: State, base: bool, p: Path, cfg: Config)
    requires Sound(cfg.extract) && PathOk(s, base, p, cfg) && Next(s, Drop, t, cfg)
    ensures PathOk(t, AfterMarks(MarksOf(s.pending.value, p), base) == Some(true), p, cfg) <==> !Awaited(s, p, cfg)
  {
    hide Ahead, Sound, Grams;
    UnknownPath(s.index, p);
    NotThere(s.fs, cfg.extract, p);
    SameAhead(s, t, p);
    if Changes(s.pending.value) == 0 {
      assert MarksOf(s.pending.value, p) == NO_MARKS;
    } else {
      NoneLive(s.index, p);
    }
    assert Ahead(s, p) == [] ==> AfterMarks(MarksOf(s.pending.value, p), base).value == (p in s.fs);
    hide LiveDoc, Lookup, LiveTrigrams, AfterMarks, Exec;
  }

  lemma NoneLive(idx: Index, p: Path)
    requires idx.docs == []
    ensures LiveDoc(idx, p).None?
  {
  }

  /** The batches still queued can be replayed on what a full build found. */
  ghost predicate InStep(s: State, p: Path, cfg: Config) {
    || Exec(true, QueueOps(s.queue, p)) == Some(p in s.fs)
    || (Exec(false, QueueOps(s.queue, p)) == Some(p in s.fs) && ExtractAt(cfg.extract, s.fs, p).None?)
  }

  /** The history a full build starts from. */
  ghost function Fresh(s: State): iset<Path> {
    iset p | Exec(true, QueueOps(s.queue, p)) == Some(p in s.fs)
  }

  lemma BuiltKnows(built: Index, fs: FileSystem, extract: Extractor)
    requires Sound(extract) && FullyBuilt(built, fs, extract)
    ensures Valid(built) && forall p :: Right(built, fs, p, extract, {})
  {
    hide FullBuild.Rebased, FullBuild.AfterChunks, Valid, Right;
    var chunks, stop, rejected :|
      FullBuild.ChunksHold(chunks, fs, extract)
      && built == FullBuild.Rebased(FullBuild.AfterChunks(chunks, |chunks|), stop, rejected);
    hide FullBuild.ChunksHold;
    FullBuild.FullBuildMeetsDisk(chunks, stop, rejected, fs, extract);
    assert Build.Current(built, fs, extract, {});
  }

  lemma RebuildPath(s: State, built: Index, t: State, p: Path, cfg: Config)
    requires Sound(cfg.extract) && Next(s, Step.Rebuild(built), t, cfg)
    ensures PathOk(t, p in Fresh(s), p, cfg) <==> InStep(s, p, cfg)
  {
    assert Right(built, s.fs, p, cfg.extract, {}) by { BuiltKnows(built, s.fs, cfg.extract); }
    assert LiveDoc(built, p).None? <==> ExtractAt(cfg.extract, s.fs, p).None? by {
      UnknownPath(built, p);
      hide LiveDoc;
    }
    assert Ahead(t, p) == QueueOps(s.queue, p);
    assert AfterMarks(NO_MARKS, p in Fresh(s)) == Some(p in Fresh(s));
    hide Exec, Ahead, Lookup, LiveDoc, LiveTrigrams, Grams, AfterMarks, QueueOps, FullyBuilt, Sound;
  }

  /** What a step that may lose something has to meet, for nothing to be lost. */
  ghost predicate Keeps(s: State, step: Step, cfg: Config) {
    match step
    case Skip => s.events != [] && s.events[0].kind == Modified
    case Drop => forall p :: !Awaited(s, p, cfg)
    case Rebuild(_) => forall p :: InStep(s, p, cfg)
    case _ => true
  }

  // --------------------------------------------------------------- every run

  ghost predicate Inv(s: State, base: iset<Path>, cfg: Config)
    requires Sound(cfg.extract)
  {
    && Valid(s.index)
    && (s.pending.Some? ==> Tidy(s.pending.value))
    && (forall i :: 0 <= i < |s.queue| ==> Clean(s.queue[i]))
    && AllPathsOk(s, base, cfg)
  }

  ghost function NextBase(s: State, step: Step, base: iset<Path>): iset<Path> {
    if (step.Flush? || step.Drop?) && s.pending.Some? then Advance(s.pending.value, base)
    else if step.Rebuild? then Fresh(s)
    else base
  }

  lemma PathStep(s: State, step: Step, t: State, base: bool, p: Path, cfg: Config)
    requires Sound(cfg.extract) && PathOk(s, base, p, cfg) && Valid(s.index) && Next(s, step, t, cfg)
    requires !step.Flush? && !step.Drop? && !step.Rebuild? && (step.Accumulate? ==> Clean(s.queue[0]))
    ensures PathOk(t, base, p, cfg) <==>
            (step.Skip? && s.events[0].path == p ==> s.events[0].kind == Modified)
  {
    hide PathOk, Valid, Clean, Sound, Compact.IsCompaction, Reports, AddEvent, MergeBatches, FullyBuilt;
    match step {
      case Create(q, f) => FsStep(s, t, base, q, Created, p, cfg);
      case Modify(q, f) => FsStep(s, t, base, q, Modified, p, cfg);
      case Delete(q) => FsStep(s, t, base, q, Deleted, p, cfg);
      case Deliver => DeliverStep(s, t, base, p, cfg);
      case Skip => SkipPath(s, t, base, p, cfg);
      case Debounce(b) => DebounceStep(s, b, t, base, p, cfg);
      case Accumulate => AccumulateStep(s, t, base, p, cfg);
      case CompactTo(c) => CompactPath(s, c, t, base, p, cfg);
    }
  }

  lemma ReportIsClean(b: Batch, d: map<Path, ChangeKind>)
    requires Reports(b, d)
    ensures Clean(b)
  {
  }

  lemma TidyStep(s: State, step: Step, t: State, cfg: Config)
    requires Sound(cfg.extract) && Next(s, step, t, cfg)
    requires s.pending.Some? ==> Tidy(s.pending.value)
    requires forall i :: 0 <= i < |s.queue| ==> Clean(s.queue[i])
    ensures t.pending.Some? ==> Tidy(t.pending.value)
    ensures forall i :: 0 <= i < |t.queue| ==> Clean(t.queue[i])
  {
    hide Reports, Sound, Tidy, MergeBatches, AddEvent, Compact.IsCompaction, FullyBuilt, Applied, Rebuilds;
    if step.Debounce? {
      ReportIsClean(step.batch, s.debounce);
    } else if step.Accumulate? {
      assert Clean(s.queue[0]);
      AccumulateMarks(s, t, "", cfg);
    }
    hide Clean;
  }

  /** Every step keeps the invariant, if those that may lose something lose nothing. */
  lemma KeepsInv(s: State, step: Step, t: State, base: iset<Path>, cfg: Config)
    requires Sound(cfg.extract) && Inv(s, base, cfg) && Next(s, step, t, cfg) && Keeps(s, step, cfg)
    ensures Inv(t, NextBase(s, step, base), cfg)
  {
    TidyStep(s, step, t, cfg);
    PathsAfterStep(s, step, t, base, cfg);
    hide PathOk, Clean, Tidy, Sound, AllPathsOk, NextBase;
    assert Valid(t.index) by {
      hide Valid;
      if step.Flush? {
        FlushStep(s, t, base, cfg);
      } else if step.CompactTo? {
        hide Compact.IsCompaction;
        CompactSafety.CompactionKeepsValid(s.index, step.compacted);
      } else if step.Rebuild? {
        hide FullyBuilt;
        BuiltKnows(step.built, s.fs, cfg.extract);
      }
      hide Applied, Compact.IsCompaction, FullyBuilt, Reports, AddEvent, MergeBatches, Rebuilds;
    }
  }

  lemma PathsAfterStep(s: State, step: Step, t: State, base: iset<Path>, cfg: Config)
    requires Sound(cfg.extract) && Inv(s, base, cfg) && Next(s, step, t, cfg)
    ensures (step.Skip? || step.Drop? || step.Rebuild?) ==>
            (AllPathsOk(t, NextBase(s, step, base), cfg) <==> Keeps(s, step, cfg))
    ensures !(step.Skip? || step.Drop? || step.Rebuild?) ==> AllPathsOk(t, NextBase(s, step, base), cfg)
  {
    hide PathOk, Valid, Clean, Tidy, Sound, Reports, AddEvent, MergeBatches, Applied, Advance, Awaited, InStep, Fresh;
    match step {
      case Flush => FlushStep(s, t, base, cfg);
      case Skip => SkipKeepsIff(s, t, base, cfg);
      case Drop => DropKeepsIff(s, t, base, cfg);
      case Rebuild(built) => RebuildKeepsIff(s, built, t, base, cfg);
      case _ =>
        forall p
          ensures PathOk(t, p in base, p, cfg)
        {
          assert PathOk(s, p in base, p, cfg);
          hide Next;
          PathStep(s, step, t, p in base, p, cfg);
        }
    }
  }

  /** A batch dropped keeps the invariant if and only if none of its files is there to be indexed. */
  lemma DropKeepsIff(s: State, t: State, base: iset<Path>, cfg: Config)
    requires Sound(cfg.extract) && AllPathsOk(s, base, cfg) && Next(s, Drop, t, cfg)
    ensures AllPathsOk(t, Advance(s.pending.value, base), cfg) <==> forall p :: !Awaited(s, p, cfg)
  {
    assert s.pending.Some?;
    hide PathOk, Next, Sound, Awaited, Advance, AfterMarks;
    forall p
      ensures PathOk(t, p in Advance(s.pending.value, base), p, cfg) <==> !Awaited(s, p, cfg)
    {
      assert PathOk(s, p in base, p, cfg);
      DropPath(s, t, p in base, p, cfg);
      AdvanceAt(s.pending.value, base, p);
    }
  }

  /**
    A rebuild keeps the invariant if and only if the batches still queued can be
    replayed on what it found: none begins with the creation of a file it has
    indexed, and none ends otherwise than the file system is.
  */
  lemma RebuildKeepsIff(s: State, built: Index, t: State, base: iset<Path>, cfg: Config)
    requires Sound(cfg.extract) && Next(s, Step.Rebuild(built), t, cfg)
    ensures AllPathsOk(t, Fresh(s), cfg) <==> forall p :: InStep(s, p, cfg)
  {
    hide PathOk, Next, Sound, InStep, Fresh;
    forall p
      ensures PathOk(t, p in Fresh(s), p, cfg) <==> InStep(s, p, cfg)
    {
      RebuildPath(s, built, t, p, cfg);
    }
  }

  /** A run: each state follows from the one before by some step. */
  ghost predicate IsRun(states: seq<State>, steps: seq<Step>, cfg: Config)
    requires Sound(cfg.extract)
  {
    && |states| == |steps| + 1
    && forall i :: 0 <= i < |steps| ==> Next(states[i], steps[i], states[i + 1], cfg)
  }

  /** In the first `n` steps nothing is lost where something may be. */
  ghost predicate Careful(states: seq<State>, steps: seq<Step>, n: nat, cfg: Config)
    requires n <= |steps| && n < |states|
  {
    forall k :: 0 <= k < n ==> Keeps(states[k], steps[k], cfg)
  }

  /**
    A daemon starts with an index that knows the files as they are, but for the
    trigrams that compactions took out before, and nothing in flight.
  */
  ghost predicate Starts(s: State, cfg: Config)
    requires Sound(cfg.extract)
  {
    && Valid(s.index)
    && s.events == [] && s.debounce == map[] && s.queue == [] && s.pending == None
    && forall p :: Right(s.index, s.fs, p, cfg.extract, s.stripped)
  }

  lemma StartsInv(s: State, cfg: Config)
    requires Sound(cfg.extract) && Starts(s, cfg)
    ensures Inv(s, (iset p | p in s.fs), cfg)
  {
    hide Valid, Lookup, LiveDoc;
    forall p
      ensures PathOk(s, p in s.fs, p, cfg)
    {
      assert Ahead(s, p) == [];
      UnknownPath(s.index, p);
      assert Right(s.index, s.fs, p, cfg.extract, s.stripped);
    }
  }

  lemma {:induction false} RunInv(states: seq<State>, steps: seq<Step>, n: nat, cfg: Config) returns (base: iset<Path>)
    requires Sound(cfg.extract) && IsRun(states, steps, cfg) && Starts(states[0], cfg) && n < |states|
    requires Careful(states, steps, n, cfg)
    ensures Inv(states[n], base, cfg)
  {
    hide Inv, Sound, Starts, Next, Keeps;
    if n == 0 {
      StartsInv(states[0], cfg);
      base := iset p | p in states[0].fs;
    } else {
      var before := RunInv(states, steps, n - 1, cfg);
      assert Next(states[n - 1], steps[n - 1], states[n], cfg);
      assert Keeps(states[n - 1], steps[n - 1], cfg);
      KeepsInv(states[n - 1], steps[n - 1], states[n], before, cfg);
      base := NextBase(states[n - 1], steps[n - 1], before);
    }
  }

  /** Nothing is on its way to the index. */
  predicate Settled(s: State) {
    s.events == [] && s.debounce == map[] && s.queue == [] && s.pending == None
  }

  /** In no state of a careful run has a path two valid documents. */
  lemma NeverTwoLive(states: seq<State>, steps: seq<Step>, n: nat, cfg: Config)
    requires Sound(cfg.extract) && IsRun(states, steps, cfg) && Starts(states[0], cfg) && n < |states|
    requires Careful(states, steps, n, cfg)
    ensures Valid(states[n].index) && OneLive(states[n].index.docs)
  {
    hide IsRun, Starts, Sound, Careful;
    var base := RunInv(states, steps, n, cfg);
  }

  /**
    Once nothing is pending, the index knows exactly the files there are, as they
    are, and each of their trigrams but those compactions took out.
  */
  lemma CatchesUp(states: seq<State>, steps: seq<Step>, n: nat, p: Path, cfg: Config)
    requires Sound(cfg.extract) && IsRun(states, steps, cfg) && Starts(states[0], cfg) && n < |states|
    requires Careful(states, steps, n, cfg) && Settled(states[n])
    ensures Right(states[n].index, states[n].fs, p, cfg.extract, states[n].stripped)
  {
    hide IsRun, Starts, Sound, Valid, Lookup, Careful;
    var base := RunInv(states, steps, n, cfg);
    assert PathOk(states[n], p in base, p, cfg);
  }

  // ------------------------------------------------- where the promise breaks

  /**
    The interface of the debouncer admits a rename followed by a creation within
    one window; nothing reports renames today. It would be passed on as a
    creation: the old document is not buried and the path ends up with two.
  */
  lemma RenameThenCreate(idx: Index, p: Path, f: ProcessedFile)
    requires Valid(idx) && LiveDoc(idx, p).Some? && WellFormedFile(f) && f.relPath == p
    ensures AddEvent(AddEvent(map[], p, Renamed), p, Created) == map[p := Created]
    ensures Reports(Batch([p], [], []), map[p := Created])
    ensures !OneLive(Updated(idx, [], [f]).docs)
  {
    assert !OneLive(Updated(idx, [], [f]).docs) by {
      hide LiveDoc, Valid;
      OneLiveIff(idx, [], [f]);
      hide *;
      assert !BuriesWhatItAdds(idx, [], [f]) by { Unburied(idx, f); }
    }
    hide Updated, LiveDoc, Valid, OneLive, WellFormedFile;
  }

  lemma Unburied(idx: Index, f: ProcessedFile)
    requires LiveDoc(idx, f.relPath).Some?
    ensures !BuriesWhatItAdds(idx, [], [f])
  {
    hide LiveDoc;
    assert [f][0].relPath !in [];
  }

  // ------------------------------------------------------ an index without documents

  /** Nothing is on its way but the pending batch. */
  predicate Calm(s: State) {
    s.events == [] && s.debounce == map[] && s.queue == []
  }

  lemma CalmAhead(s: State, p: Path)
    requires Calm(s)
    ensures Ahead(s, p) == [] && QueueOps(s.queue, p) == []
  {
  }

  /** A file of the batch can be indexed. */
  ghost predicate HasIndexable(b: Batch, fs: FileSystem, extract: Extractor) {
    exists p :: (p in b.created || p in b.modified) && ExtractAt(extract, fs, p).Some?
  }

  lemma CalmKeeps(s: State, step: Step, t: State, cfg: Config)
    requires Sound(cfg.extract) && Calm(s) && Next(s, step, t, cfg) && (step.Flush? || step.Drop? || step.Rebuild?)
    ensures Keeps(s, step, cfg) <==> s.index.docs != [] || !HasIndexable(s.pending.value, s.fs, cfg.extract)
  {
    hide Sound, FullyBuilt, Applied, Exec, Ahead, QueueOps, ExtractAll;
    forall p
      ensures Ahead(s, p) == [] && QueueOps(s.queue, p) == []
    {
      CalmAhead(s, p);
    }
    EmptyReplay();
    assert forall p :: Awaited(s, p, cfg) ==> HasIndexable(s.pending.value, s.fs, cfg.extract);
    if HasIndexable(s.pending.value, s.fs, cfg.extract) {
      var p :| (p in s.pending.value.created || p in s.pending.value.modified) && ExtractAt(cfg.extract, s.fs, p).Some?;
      assert Awaited(s, p, cfg);
    }
  }

  lemma EmptyReplay()
    ensures forall e: bool :: Exec(e, []) == Some(e)
  {
  }

  lemma SettledKnows(t: State, base: iset<Path>, cfg: Config)
    requires Sound(cfg.extract) && AllPathsOk(t, base, cfg) && Settled(t)
    ensures forall p :: Right(t.index, t.fs, p, cfg.extract, t.stripped)
  {
    hide Right, Exec, LiveDoc;
    forall p
      ensures Right(t.index, t.fs, p, cfg.extract, t.stripped)
    {
      assert PathOk(t, p in base, p, cfg);
      CalmAhead(t, p);
    }
  }

  lemma StaysCalm(s: State, step: Step, t: State, cfg: Config)
    requires Sound(cfg.extract) && Next(s, step, t, cfg) && Calm(s) && (step.Flush? || step.Drop? || step.Rebuild?)
    ensures Settled(t)
  {
    hide Sound, FullyBuilt, Applied, Rebuilds;
  }

  lemma OnlyDrops(s: State, step: Step, t: State, cfg: Config)
    requires Sound(cfg.extract) && Next(s, step, t, cfg) && s.index.docs == []
    requires step.Flush? || step.Drop? || step.Rebuild?
    ensures step.Drop? && t.index == s.index && t.fs == s.fs
  {
    hide Sound, FullyBuilt, Applied;
  }

  lemma EmptyKnowsNothing(idx: Index, fs: FileSystem, p: Path, extract: Extractor, stripped: set<Trigram>)
    requires Sound(extract) && idx.docs == [] && ExtractAt(extract, fs, p).Some?
    ensures !Right(idx, fs, p, extract, stripped)
  {
    NoneLive(idx, p);
    hide LiveDoc, LiveTrigrams, Grams;
  }

  /**
    When the pending batch is taken with nothing else on its way, the index
    knows the files as they are if and only if it had documents, or nothing in
    the batch can be indexed.
  */
  lemma TakenMeetsDiskIff(s: State, step: Step, t: State, base: iset<Path>, cfg: Config)
    requires Sound(cfg.extract) && Inv(s, base, cfg) && Calm(s) && Next(s, step, t, cfg)
    requires step.Flush? || step.Drop? || step.Rebuild?
    ensures (forall p :: Right(t.index, t.fs, p, cfg.extract, t.stripped)) <==>
            s.index.docs != [] || !HasIndexable(s.pending.value, s.fs, cfg.extract)
  {
    hide Inv, Keeps, Right, HasIndexable, Sound, FullyBuilt, Applied, Rebuilds;
    assert s.pending.Some?;
    hide Next;
    CalmKeeps(s, step, t, cfg);
    if Keeps(s, step, cfg) {
      KeepsInv(s, step, t, base, cfg);
      StaysCalm(s, step, t, cfg);
      assert AllPathsOk(t, NextBase(s, step, base), cfg) by { InvPaths(t, NextBase(s, step, base), cfg); }
      SettledKnows(t, NextBase(s, step, base), cfg);
    } else {
      var p := SomeIndexable(s.pending.value, s.fs, cfg.extract);
      OnlyDrops(s, step, t, cfg);
      EmptyKnowsNothing(t.index, t.fs, p, cfg.extract, t.stripped);
    }
  }

  lemma InvPaths(s: State, base: iset<Path>, cfg: Config)
    requires Sound(cfg.extract) && Inv(s, base, cfg)
    ensures AllPathsOk(s, base, cfg)
  {
  }

  lemma SomeIndexable(b: Batch, fs: FileSystem, extract: Extractor) returns (p: Path)
    requires HasIndexable(b, fs, extract)
    ensures ExtractAt(extract, fs, p).Some?
  {
    p :| (p in b.created || p in b.modified) && ExtractAt(extract, fs, p).Some?;
  }

  lemma EmptyStep(s: State, step: Step, t: State, cfg: Config)
    requires Sound(cfg.extract) && Next(s, step, t, cfg) && Valid(s.index) && s.index.docs == []
    ensures t.index.docs == [] && Valid(t.index) && !step.Flush? && !step.Rebuild?
  {
    hide Sound, Valid, Compact.IsCompaction, Applied, FullyBuilt, Reports, AddEvent, MergeBatches;
    if step.CompactTo? {
      CompactSafety.TableSizes(s.index, step.compacted);
      CompactSafety.CompactionKeepsValid(s.index, step.compacted);
    }
  }

  /**
    An index without documents never gets one from the watcher: in no run from
    it is a batch ever applied or a rebuild asked for, so each one is dropped.
  */
  lemma {:induction false} EmptyNeverFills(states: seq<State>, steps: seq<Step>, n: nat, cfg: Config)
    requires Sound(cfg.extract) && IsRun(states, steps, cfg) && n < |states|
    requires states[0].index.docs == [] && Valid(states[0].index)
    ensures states[n].index.docs == [] && Valid(states[n].index)
    ensures forall k :: 0 <= k < n ==> !steps[k].Flush? && !steps[k].Rebuild?
  {
    hide Sound, Next, Valid;
    if n > 0 {
      EmptyNeverFills(states, steps, n - 1, cfg);
      assert Next(states[n - 1], steps[n - 1], states[n], cfg);
      EmptyStep(states[n - 1], steps[n - 1], states[n], cfg);
    }
  }

  // ------------------------------------------------------------ two of the same path

  /**
    A rebuild does not take back the batches already sent. If the next one
    creates files the rebuild has indexed, they are indexed twice: applying it
    leaves one valid document a path if and only if it creates none of them.
  */
  lemma RebuiltThenFlushedIff(s: State, built: Index, t: State, u: State, v: State, b: Batch, cfg: Config)
    requires Sound(cfg.extract) && Next(s, Step.Rebuild(built), t, cfg)
    requires s.queue == [b] && Clean(b) && Next(t, Accumulate, u, cfg) && Next(u, Flush, v, cfg)
    ensures OneLive(v.index.docs) <==> forall p :: p in b.created ==> ExtractAt(cfg.extract, s.fs, p).None?
  {
    RebuiltShape(s, built, t, u, v, b, cfg);
    BuiltKnows(built, s.fs, cfg.extract);
    var paths, gone := b.created + b.modified, b.deleted + b.modified;
    ExtractedFiles(cfg.extract, s.fs, paths);
    var files := ExtractAll(cfg.extract, s.fs, paths);
    hide *;
    CleanDistinct(b);
    ExtractedDistinct(cfg.extract, s.fs, paths);
    OneLiveIff(built, gone, files);
    BuriesIff(built, b, s.fs, cfg.extract);
  }

  lemma RebuiltShape(s: State, built: Index, t: State, u: State, v: State, b: Batch, cfg: Config)
    requires Sound(cfg.extract) && Next(s, Step.Rebuild(built), t, cfg)
    requires s.queue == [b] && Next(t, Accumulate, u, cfg) && Next(u, Flush, v, cfg)
    ensures FullyBuilt(built, s.fs, cfg.extract)
    ensures AllWellFormed(ExtractAll(cfg.extract, s.fs, b.created + b.modified))
    ensures v.index == Updated(built, b.deleted + b.modified, ExtractAll(cfg.extract, s.fs, b.created + b.modified))
  {
    ExtractedFiles(cfg.extract, s.fs, b.created + b.modified);
    hide FullyBuilt, Updated, ExtractAll, Sound, AllWellFormed, Rebuilds;
  }

  lemma CleanDistinct(b: Batch)
    requires Clean(b)
    ensures Distinct(b.created + b.modified)
  {
    var paths := b.created + b.modified;
    forall i, j | 0 <= i < j < |paths|
      ensures paths[i] != paths[j]
    {
      if i < |b.created| <= j {
        assert b.created[i] in b.created && b.modified[j - |b.created|] in b.modified;
      }
    }
  }

  lemma BuriesIff(idx: Index, b: Batch, fs: FileSystem, extract: Extractor)
    requires Sound(extract) && Clean(b) && forall p :: Right(idx, fs, p, extract, {})
    requires AllWellFormed(ExtractAll(extract, fs, b.created + b.modified))
    ensures BuriesWhatItAdds(idx, b.deleted + b.modified, ExtractAll(extract, fs, b.created + b.modified)) <==>
            forall p :: p in b.created ==> ExtractAt(extract, fs, p).None?
  {
    var paths, gone := b.created + b.modified, b.deleted + b.modified;
    var files := ExtractAll(extract, fs, paths);
    ExtractedFiles(extract, fs, paths);
    hide ExtractAll, Tidy;
    forall p
      ensures LiveDoc(idx, p).Some? <==> ExtractAt(extract, fs, p).Some?
    {
      assert Right(idx, fs, p, extract, {});
      UnknownPath(idx, p);
    }
    hide Right, LiveDoc;
    if p :| p in b.created && ExtractAt(extract, fs, p).Some? {
      var f := ExtractAt(extract, fs, p).value;
      assert f in files;
      var i :| 0 <= i < |files| && files[i] == f;
      assert files[i].relPath !in gone;
    }
    forall i | 0 <= i < |files|
      ensures files[i].relPath in b.modified
              || (files[i].relPath in b.created && ExtractAt(extract, fs, files[i].relPath).Some?)
    {
      assert files[i] in files;
    }
  }

  // --------------------------------------------------------- a deletion passed over

  lemma RunSnoc(states: seq<State>, steps: seq<Step>, step: Step, t: State, cfg: Config)
    requires Sound(cfg.extract) && IsRun(states, steps, cfg) && Next(states[|steps|], step, t, cfg)
    ensures IsRun(states + [t], steps + [step], cfg)
  {
    hide Next, Sound;
    forall i | 0 <= i < |steps| + 1
      ensures Next((states + [t])[i], (steps + [step])[i], (states + [t])[i + 1], cfg)
    {
      assert i < |steps| ==> Next(states[i], steps[i], states[i + 1], cfg);
    }
  }

  /** The run of one step. */
  lemma RunOne(s: State, step: Step, t: State, cfg: Config)
    requires Sound(cfg.extract) && Next(s, step, t, cfg)
    ensures IsRun([s, t], [step], cfg)
  {
    hide Next, Sound;
  }

  /** A file is deleted and the event passed over because there is no file to be seen. */
  lemma DeletePassedOver(s: State, p: Path, cfg: Config) returns (t: State, u: State)
    requires Sound(cfg.extract) && Settled(s) && p in s.fs
    ensures Next(s, Delete(p), t, cfg) && Next(t, Skip, u, cfg)
    ensures u == s.(fs := s.fs - {p})
  {
    t := s.(fs := s.fs - {p}, events := s.events + [Event(p, Deleted)]);
    u := t.(events := t.events[1..]);
    hide Sound;
  }

  /** A file is created and goes all the way to the pending batch. */
  lemma CreatePending(s: State, p: Path, f: File, cfg: Config) returns (t: State, u: State, v: State, w: State)
    requires Sound(cfg.extract) && Settled(s) && p !in s.fs
    ensures Next(s, Create(p, f), t, cfg) && Next(t, Deliver, u, cfg)
    ensures Next(u, Debounce(Batch([p], [], [])), v, cfg) && Next(v, Accumulate, w, cfg)
    ensures w == s.(fs := s.fs[p := f], pending := Some(Batch([p], [], [])))
  {
    var b := Batch([p], [], []);
    t := s.(fs := s.fs[p := f], events := s.events + [Event(p, Created)]);
    u := t.(events := t.events[1..], debounce := AddEvent(t.debounce, p, Created));
    assert u.debounce == map[p := Created];
    assert Reports(b, u.debounce);
    v := u.(debounce := map[], queue := u.queue + [b]);
    w := v.(queue := v.queue[1..], pending := Some(v.queue[0]));
    hide Sound;
  }

  lemma FlushOne(s: State, p: Path, cfg: Config) returns (t: State)
    requires Sound(cfg.extract) && Valid(s.index) && s.pending == Some(Batch([p], [], [])) && p in s.fs
    requires LiveDoc(s.index, p).Some? && 100 < (cfg.rebuildThresholdPercent + 1) * |s.index.docs|
    ensures Next(s, Flush, t, cfg)
    ensures OneLive(t.index.docs) <==> cfg.extract(p, s.fs[p]).None?
  {
    hide *;
    t := FlushOneIs(s, p, cfg);
    var files := ExtractAll(cfg.extract, s.fs, [p]);
    OneLiveIff(s.index, [], files);
    OnlyFile(cfg.extract, s.fs, p);
    OneBuried(s.index, p, files);
  }

  lemma FlushOneIs(s: State, p: Path, cfg: Config) returns (t: State)
    requires Sound(cfg.extract) && s.pending == Some(Batch([p], [], []))
    requires 100 < (cfg.rebuildThresholdPercent + 1) * |s.index.docs|
    ensures Next(s, Flush, t, cfg) && AllWellFormed(ExtractAll(cfg.extract, s.fs, [p]))
    ensures t.index == Updated(s.index, [], ExtractAll(cfg.extract, s.fs, [p]))
  {
    var b := Batch([p], [], []);
    hide Sound, ExtractAll, AllWellFormed, Updated;
    assert b.created + b.modified == [p] && b.deleted + b.modified == [];
    assert s.index.docs != [];
    ExtractedFiles(cfg.extract, s.fs, [p]);
    t := s.(pending := None, index := Applied(s.index, b, s.fs, cfg.extract));
  }

  lemma OneBuried(idx: Index, p: Path, files: seq<ProcessedFile>)
    requires LiveDoc(idx, p).Some? && |files| <= 1 && (files != [] ==> files[0].relPath == p)
    ensures BuriesWhatItAdds(idx, [], files) <==> files == []
  {
    hide LiveDoc;
    if files != [] {
      assert files[0].relPath !in [];
    }
  }

  lemma OnlyFile(extract: Extractor, fs: FileSystem, p: Path)
    requires Sound(extract) && p in fs
    ensures var files := ExtractAll(extract, fs, [p]);
            && (files == [] <==> extract(p, fs[p]).None?)
            && |files| <= 1 && (files != [] ==> files[0].relPath == p)
    ensures DistinctPaths(ExtractAll(extract, fs, [p]))
  {
    assert [p][..0] == [];
    assert ExtractAll(extract, fs, []) == [];
  }

  /**
    The watcher thread passes over events of paths that are no files, so it
    misses deletions: the index goes on knowing the file. If it is created again
    the path ends up with two valid documents, if and only if the new file can
    be indexed.
  */
  lemma SkippedDeletion(s: State, p: Path, f: File, cfg: Config) returns (states: seq<State>, steps: seq<Step>)
    requires Sound(cfg.extract) && Valid(s.index) && Settled(s) && p in s.fs
    requires LiveDoc(s.index, p).Some? && 100 < (cfg.rebuildThresholdPercent + 1) * |s.index.docs|
    ensures steps == [Delete(p), Skip, Create(p, f), Deliver, Debounce(Batch([p], [], [])), Accumulate, Flush]
    ensures IsRun(states, steps, cfg) && states[0] == s
    ensures Settled(states[2]) && p !in states[2].fs && Lookup(states[2].index, p).Some?
    ensures states[7].fs == s.fs[p := f]
    ensures OneLive(states[7].index.docs) <==> cfg.extract(p, f).None?
  {
    UnknownPath(s.index, p);
    hide Next, Valid, LiveDoc, Lookup, Sound;
    var b := Batch([p], [], []);
    var t1, t2 := DeletePassedOver(s, p, cfg);
    var t3, t4, t5, t6 := CreatePending(t2, p, f, cfg);
    assert t6.index == s.index && t6.fs[p] == f;
    var t7 := FlushOne(t6, p, cfg);
    assert t7.fs == t6.fs by { FlushedFiles(t6, t7, cfg); }
    assert t6.fs == s.fs[p := f];
    hide OneLive, IsRun;
    RunOne(s, Delete(p), t1, cfg);
    RunSnoc([s, t1], [Delete(p)], Skip, t2, cfg);
    assert [s, t1] + [t2] == [s, t1, t2];
    RunOn([s, t1, t2], [Delete(p), Skip], Create(p, f), t3, Deliver, t4, cfg);
    assert [s, t1, t2] + [t3, t4] == [s, t1, t2, t3, t4];
    RunOn([s, t1, t2, t3, t4], [Delete(p), Skip, Create(p, f), Deliver], Debounce(b), t5, Accumulate, t6, cfg);
    var before := [Delete(p), Skip, Create(p, f), Deliver, Debounce(b), Accumulate];
    assert [s, t1, t2, t3, t4] + [t5, t6] == [s, t1, t2, t3, t4, t5, t6];
    assert [Delete(p), Skip, Create(p, f), Deliver] + [Debounce(b), Accumulate] == before;
    RunSnoc([s, t1, t2, t3, t4, t5, t6], before, Flush, t7, cfg);
    states, steps := [s, t1, t2, t3, t4, t5, t6] + [t7], before + [Flush];
  }

  lemma FlushedFiles(s: State, t: State, cfg: Config)
    requires Sound(cfg.extract) && Next(s, Flush, t, cfg)
    ensures t.fs == s.fs
  {
    hide Sound, Applied, ExtractAll;
  }

  lemma RunOn(states: seq<State>, steps: seq<Step>, a: Step, t: State, b: Step, u: State, cfg: Config)
    requires Sound(cfg.extract) && IsRun(states, steps, cfg)
    requires Next(states[|steps|], a, t, cfg) && Next(t, b, u, cfg)
    ensures IsRun(states + [t, u], steps + [a, b], cfg)
  {
    hide Next, Sound;
    RunSnoc(states, steps, a, t, cfg);
    RunSnoc(states + [t], steps + [a], b, u, cfg);
    assert states + [t] + [u] == states + [t, u] && steps + [a] + [b] == steps + [a, b];
  }
}
