/**
  Listing matching files with a limit (src/query/executor.rs:402-463): workers
  look at a shared counter before they read a file and raise it when the file
  matches, in any interleaving; the list is then sorted and cut.
*/
module FilesOnly {
  import opened Text
  import opened Sorting
  import opened Index

  /** Paths in byte order; `PathBuf` compares by component, which is left out. */
  ghost predicate SortedPaths(s: seq<Path>) {
    SortedBy(Before, s)
  }

  // ------------------------------------------------------------------ the workers

  /** A candidate file and whether reading it finds a match. */
  datatype Candidate = Candidate(path: Path, matching: bool)

  /** What became of a candidate. */
  datatype Status = Waiting | Checked | Skipped | Missed | Found

  datatype Workers = Workers(count: nat, status: seq<Status>)

  datatype Step = Check(i: nat) | Read(i: nat)

  /** One atomic action of the worker on candidate `i`: looking at the counter, or reading and raising it. */
  ghost predicate Next(cs: seq<Candidate>, limit: nat, s: Workers, step: Step, t: Workers) {
    match step
    case Check(i) =>
      && i < |s.status| && s.status[i] == Waiting
      && t == s.(status := s.status[i := if s.count >= limit then Skipped else Checked])
    case Read(i) =>
      && i < |cs| && i < |s.status| && s.status[i] == Checked
      && t == if cs[i].matching then Workers(s.count + 1, s.status[i := Found]) else s.(status := s.status[i := Missed])
  }

  function FoundPaths(cs: seq<Candidate>, status: seq<Status>): seq<Path>
    requires |cs| == |status|
  {
    if cs == [] then []
    else FoundPaths(cs[..|cs| - 1], status[..|cs| - 1]) + if status[|cs| - 1] == Found then [cs[|cs| - 1].path] else []
  }

  function MatchingPaths(cs: seq<Candidate>): seq<Path> {
    if cs == [] then []
    else MatchingPaths(cs[..|cs| - 1]) + if cs[|cs| - 1].matching then [cs[|cs| - 1].path] else []
  }

  /** The counter counts the files found, only matches are found, and files are skipped only once there are enough. */
  ghost predicate Fair(cs: seq<Candidate>, limit: nat, s: Workers) {
    && |s.status| == |cs|
    && s.count == |FoundPaths(cs, s.status)|
    && (forall i :: 0 <= i < |cs| && s.status[i] == Found ==> cs[i].matching)
    && (forall i :: 0 <= i < |cs| && s.status[i] == Missed ==> !cs[i].matching)
    && (forall i :: 0 <= i < |cs| && s.status[i] == Skipped ==> s.count >= limit)
  }

  lemma {:induction false} FoundOneMore(cs: seq<Candidate>, status: seq<Status>, i: nat, after: Status)
    requires |cs| == |status| && i < |cs| && status[i] != Found
    ensures |FoundPaths(cs, status[i := after])| == |FoundPaths(cs, status)| + if after == Found then 1 else 0
    decreases |cs|
  {
    var n := |cs| - 1;
    var more := status[i := after];
    if i < n {
      assert more[..n] == status[..n][i := after];
      FoundOneMore(cs[..n], status[..n], i, after);
    } else {
      assert more[..n] == status[..n];
    }
  }

  lemma FairStep(cs: seq<Candidate>, limit: nat, s: Workers, step: Step, t: Workers)
    requires Fair(cs, limit, s) && Next(cs, limit, s, step, t)
    ensures Fair(cs, limit, t)
  {
    FoundOneMore(cs, s.status, step.i, t.status[step.i]);
    hide FoundPaths;
  }

  ghost predicate IsRun(cs: seq<Candidate>, limit: nat, states: seq<Workers>, steps: seq<Step>) {
    && |states| == |steps| + 1
    && states[0] == Workers(0, seq(|cs|, _ => Waiting))
    && forall i :: 0 <= i < |steps| ==> Next(cs, limit, states[i], steps[i], states[i + 1])
  }

  lemma {:induction false} NoneFound(cs: seq<Candidate>, status: seq<Status>)
    requires |cs| == |status| && forall i :: 0 <= i < |status| ==> status[i] == Waiting
    ensures FoundPaths(cs, status) == []
    decreases |cs|
  {
    if cs != [] {
      NoneFound(cs[..|cs| - 1], status[..|cs| - 1]);
    }
  }

  lemma {:induction false} RunIsFair(cs: seq<Candidate>, limit: nat, states: seq<Workers>, steps: seq<Step>, n: nat)
    requires IsRun(cs, limit, states, steps) && n < |states|
    ensures Fair(cs, limit, states[n])
  {
    if n == 0 {
      NoneFound(cs, states[0].status);
    } else {
      RunIsFair(cs, limit, states, steps, n - 1);
      assert Next(cs, limit, states[n - 1], steps[n - 1], states[n]);
      FairStep(cs, limit, states[n - 1], steps[n - 1], states[n]);
      hide Fair, Next;
    }
  }

  // ------------------------------------------------------------------ the result

  const USIZE_MAX: nat := 0xFFFF_FFFF_FFFF_FFFF

  /** A limit of 0 stands for none. */
  function EffectiveLimit(fileLimit: nat): nat {
    if fileLimit == 0 then USIZE_MAX else fileLimit
  }

  function Min(a: nat, b: nat): nat {
    if a < b then a else b
  }

  /** `sort` and `truncate`. */
  function Listed(found: seq<Path>, limit: nat): seq<Path> {
    var sorted := SortBy(Before, found);
    if |sorted| > limit then sorted[..limit] else sorted
  }

  predicate Finished(s: Workers) {
    forall i :: 0 <= i < |s.status| ==> s.status[i] != Waiting && s.status[i] != Checked
  }

  lemma {:induction false} FoundAmong(cs: seq<Candidate>, status: seq<Status>)
    requires |cs| == |status| && forall i :: 0 <= i < |cs| && status[i] == Found ==> cs[i].matching
    ensures multiset(FoundPaths(cs, status)) <= multiset(MatchingPaths(cs))
    ensures |FoundPaths(cs, status)| <= |MatchingPaths(cs)|
    decreases |cs|
  {
    if cs != [] {
      FoundAmong(cs[..|cs| - 1], status[..|cs| - 1]);
    }
  }

  lemma {:induction false} AllFound(cs: seq<Candidate>, status: seq<Status>)
    requires |cs| == |status| && forall i :: 0 <= i < |cs| ==> (status[i] == Found <==> cs[i].matching)
    ensures FoundPaths(cs, status) == MatchingPaths(cs)
    decreases |cs|
  {
    if cs != [] {
      AllFound(cs[..|cs| - 1], status[..|cs| - 1]);
    }
  }

  lemma PrefixAmong(s: seq<Path>, n: nat, m: multiset<Path>)
    requires n <= |s| && multiset(s) <= m
    ensures multiset(s[..n]) <= m
  {
    assert s == s[..n] + s[n..];
  }

  /** A list that answers the query: matching files, in order, and as many as there are up to the limit. */
  ghost predicate Answers(cs: seq<Candidate>, limit: nat, result: seq<Path>) {
    && SortedPaths(result)
    && multiset(result) <= multiset(MatchingPaths(cs))
    && |result| == Min(limit, |MatchingPaths(cs)|)
  }

  lemma SortedList(found: seq<Path>, limit: nat)
    ensures SortedPaths(Listed(found, limit))
  {
    BeforeIsOrder();
    SortSorts(Before, found);
    hide Before, SortBy, TotalOrder;
  }

  lemma ListedAnswers(cs: seq<Candidate>, limit: nat, found: seq<Path>)
    requires multiset(found) <= multiset(MatchingPaths(cs))
    requires |found| <= |MatchingPaths(cs)| && (found == MatchingPaths(cs) || |found| >= limit)
    ensures Answers(cs, limit, Listed(found, limit))
  {
    SortedList(found, limit);
    hide Before, SortBy, MatchingPaths, SortedPaths;
    if |found| > limit {
      PrefixAmong(SortBy(Before, found), limit, multiset(MatchingPaths(cs)));
    }
  }

  /** No limit but the largest number lists all there are, any other limit so many. */
  predicate LongAsAsked(length: nat, fileLimit: nat, matching: nat) {
    && (fileLimit == 0 && matching <= 0xFFFF_FFFF_FFFF_FFFF ==> length == matching)
    && (0 < fileLimit <= matching ==> length == fileLimit)
    && (fileLimit > matching ==> length == matching)
  }

  lemma Asked(cs: seq<Candidate>, fileLimit: nat)
    ensures forall result :: Answers(cs, EffectiveLimit(fileLimit), result) ==>
              LongAsAsked(|result|, fileLimit, |MatchingPaths(cs)|)
  {
    hide MatchingPaths, SortedPaths;
  }

  /** However the workers interleave, stopping early never makes the list short. */
  lemma NeverShort(cs: seq<Candidate>, fileLimit: nat, states: seq<Workers>, steps: seq<Step>)
    requires IsRun(cs, EffectiveLimit(fileLimit), states, steps) && Finished(states[|states| - 1])
    ensures |states[|states| - 1].status| == |cs|
    ensures var limit := EffectiveLimit(fileLimit);
            Answers(cs, limit, Listed(FoundPaths(cs, states[|states| - 1].status), limit))
    ensures var listed := Listed(FoundPaths(cs, states[|states| - 1].status), EffectiveLimit(fileLimit));
            LongAsAsked(|listed|, fileLimit, |MatchingPaths(cs)|)
  {
    Asked(cs, fileLimit);
    var s, limit := states[|states| - 1], EffectiveLimit(fileLimit);
    RunIsFair(cs, limit, states, steps, |states| - 1);
    hide IsRun, Answers, Listed, FoundPaths, EffectiveLimit;
    FoundAmong(cs, s.status);
    if forall i :: 0 <= i < |cs| ==> s.status[i] != Skipped {
      AllFound(cs, s.status);
    }
    ListedAnswers(cs, limit, FoundPaths(cs, s.status));
  }

  /** One file after the other, until there are enough. */
  method ListSequentially(cs: seq<Candidate>, fileLimit: nat) returns (result: seq<Path>)
    ensures Answers(cs, EffectiveLimit(fileLimit), result)
    ensures LongAsAsked(|result|, fileLimit, |MatchingPaths(cs)|)
  {
    Asked(cs, fileLimit);
    hide Answers, Listed, LongAsAsked;
    var limit := EffectiveLimit(fileLimit);
    var found: seq<Path> := [];
    var i := 0;
    while i < |cs| && |found| < limit
      invariant 0 <= i <= |cs| && found == MatchingPaths(cs[..i])
    {
      assert cs[..i + 1][..i] == cs[..i];
      if cs[i].matching {
        found := found + [cs[i].path];
      }
      i := i + 1;
    }
    FirstAmong(cs, i);
    assert i == |cs| ==> cs[..i] == cs;
    ListedAnswers(cs, limit, found);
    result := Listed(found, limit);
  }

  lemma {:induction false} FirstAmong(cs: seq<Candidate>, n: nat)
    requires n <= |cs|
    ensures multiset(MatchingPaths(cs[..n])) <= multiset(MatchingPaths(cs))
    ensures |MatchingPaths(cs[..n])| <= |MatchingPaths(cs)|
    decreases |cs|
  {
    if n == |cs| {
      assert cs[..n] == cs;
    } else {
      assert cs[..|cs| - 1][..n] == cs[..n];
      FirstAmong(cs[..|cs| - 1], n);
    }
  }
}
